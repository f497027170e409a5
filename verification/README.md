# Tekir backend: a verified model

Tekir is a neighbourhood-cat app. Its Go backend keeps cats, their photo archives and update
histories, help marks with push notifications, accounts with one-time codes and rotating refresh
tokens, and uploads that span a database and an object store. This project models the parts of that
backend whose correctness depends on many functions at once and proves their promises for all inputs,
all reachable states and all interleavings.

| file | what it holds |
|---|---|
| `Schema.dfy` | SQL three-valued logic; the tables, their foreign keys, unique indexes and the cross-table facts no constraint declares |
| `Writes.dfy` | every write as a function on the tables, `where` clauses in three-valued logic |
| `AccountDeletion.dfy` | the fifteen statements of `Store.DeleteAccount`, their order-free meaning, foreign-key safety of every prefix, exactly what is erased |
| `Effects.dfy` | what each write leaves behind, column by column, with every other row of every table as it was |
| `Machine.dfy` | runs of all writes, the invariant every step keeps |
| `History.dfy` | what no run can do to an update row |
| `HelpMarks.dfy` | frozen notification eligibility against the alert a reader would have been shown |
| `Corrections.dfy` | the conditional correct/delete statements against the "why zero rows" diagnosis |
| `Gallery.dfy` | archive visibility and the cover |
| `Linking.dfy` | linking a device to an account |
| `Dispatch.dfy`, `FanOut.dfy`, `Pushes.dfy`, `Repeats.dfy` | notification workers with row locks, aborted batches and concurrent writes: safety, completeness of the fan-out, who is pushed, and the repeated push of a rolled-back batch |
| `Retries.dfy` | posting an update with an Idempotency-Key, racing with itself and with every other write |
| `Sessions.dfy`, `Otp.dfy`, `Uploads.dfy` | the token, code and upload protocols, each read separated from its compare-and-set |
| `Keyset.dfy`, `Cursors.dfy`, `Listings.dfy` | keyset pagination, cursor codecs, and the paginated reads, on fixed and on changing tables |
| `Boxes.dfy`, `Exif.dfy` | the ISO media box walk, mvhd durations, Exif orientation, the eight pixel remappings |
| `Witnesses.dfy` | runs from the empty database that reach the states three of the results below speak of |
| `Badges.dfy` | one-pass badge derivation against its order-free specification |
| `Store.dfy`, `Services.dfy` | the same operations as imperative code: transactions and loops on mutable state, other callers acting between statements |
| `Collections.dfy` | shared facts about sets and sequences |

A committed transaction, and outside one a single statement, is one atomic step. Ids are fresh where
the backend draws a UUID. Clock readings, random ids, faults and the choices of concurrent callers are
parameters of the steps. A protocol's state also carries history fields (births, marks, evidence,
holders) that the code does not store; they only record what happened, so that a promise about a whole
run can be stated about its last state.

In `Services.dfy` each call's statements change the shared state one at a time and are recorded as
steps of the protocol; between them the method `Others` stands for any steps of other calls, known
only by its contract. Every promise proved of the protocol's runs therefore holds of the code.

Where the code gives less than its comments say, or than one would expect, the model follows the code
and the exact condition is proved:

- Reports on updates outlive account deletion. The reports statement runs after the updates are gone
  (`store.go:331-333`), so its update subselect is empty. `ReportsLeftBehind` says exactly which
  reports lose their target; `ReportOutlivesUpdate` is a run of five writes after which it happens.
- `ListAccountObjectKeys` also returns keys of photos that other accounts put into the account's cats'
  archives, so those media rows survive without an object (`SurvivorLosesObjectIff`, `BalanceKeptIff`;
  `SurvivorLosesObject` is a run of five writes after which it happens).
- `DeleteAccount` never touches `cat_traits`. It is safe exactly while no cat of the account has a trait
  (`TraitsDecideDeletion`). No code outside tests writes traits at all; the model lets them appear on
  ownerless cats only.
- Eligibility looks only at marks with an earlier `(created_at, seq)`. It agrees with the shown alert
  except exactly when a later mark was committed first and no recent earlier one exists
  (`DisagreementIsOvertaking`).
- `SetCoverPhoto` accepts a hidden archive entry (`HiddenEntryBecomesCover`). From then on, while it is
  the cover, it is shown exactly once some update posts the photo again (`ChosenCoverShownIff`).
- A push is repeated only if one of the two batches rolled back (`PushedTwiceMeansAborted`); a batch
  rolled back after a push repeats it if nothing changes (`RolledBackPushIsRepeated`; `PushSentTwice`
  is such a run).
- The per-code attempt limit always bounds consumption (`ExhaustedNeverConsumed`). It bounds the wrong
  guesses compared with a code if and only if each of them was compared while fewer than the limit had
  been, counted or not (`LimitHoldsIffInTurn`), so in particular if no two overlap
  (`LimitHoldsWithoutOverlap`); `GuessesOvershootTheLimit` is a run where it does not.
- An Idempotency-Key stops naming its update exactly when an account deletion, of the author or of the
  cat's owner, removes it (`ErasureFreesKeyIff`); a retry then posts anew. Deleting the update does not
  free the key: a retry is answered with the deleted update (`DeletedStillAnswers`).
- Outside a transaction a rotated session is lost exactly when the insert of the call that had won its
  revoke failed (`LostIffInsertFailed`; `RotationLostWithoutTx` is such a run), and a one-time code is spent
  on no session exactly when the session of the call that had consumed it failed (`LostIffIssueFailed`,
  `CodeLostWithoutTx`).
- An insert that commits but is reported as failed is cleaned up like any other: its row, which retries are
  answered with, loses its object. That is the only way a row loses it (`BalanceIsHistory`,
  `ObjectsAreRowsIff`; `CatWithoutPhoto` is such a run).
- The invalid-statuses answer to a correction is untrue of the row exactly when the correction would match
  the tables the diagnosis read (`InvalidStatusesUntrueIff`); linking the device in between gets there
  (`InvalidStatusesReachedByLink`).
- `moov` and `mvhd` are read as if their headers had 8 bytes. A `moov` with a 16-byte header is refused,
  except at one absurd size (`LargeMoovRefused`); an `mvhd` with one is not refused but misread, its creation
  time taken for the timescale (`LargeMvhdMisread`). Otherwise the duration written is the one read
  (`DurationReadIff`). `HourReadAsSecond` is an hour-long file that passes the limit of 30 seconds.

## Model

| member | source | states |
|---|---|---|
| `AccountDeletion.DeleteAccountIsPurge` | backend/internal/repository/store.go:316-357 | on any tables, the fifteen statements in order, each subselect evaluated when it runs, compute one simultaneous order-free deletion |
| `AccountDeletion.EveryStatementKeepsReferences` | backend/internal/repository/store.go:326-351 | after each of the fifteen statements every foreign key of the schema points at an existing row |
| `AccountDeletion.TraitsDecideDeletion` | backend/internal/repository/account_deletion.sql.go:56-63 | deleting the cats keeps the foreign keys if and only if no cat of the account carries a trait, and nothing earlier breaks one |
| `AccountDeletion.DeletionErasesUpdates` | backend/internal/repository/account_deletion.sql.go:160-185 | an update and its statuses go exactly when the account wrote it or owns its cat; every other row is unchanged |
| `AccountDeletion.DeletionErasesOutbox` | backend/internal/repository/account_deletion.sql.go:112-124 | an outbox row goes exactly with its cat's owner or its update's author |
| `AccountDeletion.DeletionErasesNotifications` | backend/internal/repository/account_deletion.sql.go:87-99 | a notification goes exactly with its device's account, its cat's owner or its update's author |
| `AccountDeletion.DeletionErasesFollows` | backend/internal/repository/account_deletion.sql.go:65-76 | a follow goes exactly when it is the account's or is of one of its cats |
| `AccountDeletion.DeletionErasesBelongings` | backend/internal/repository/account_deletion.sql.go:14-63 | exactly the account's cats, media and archive entries go; another owner's cat survives and loses at most a cover the account uploaded |
| `AccountDeletion.DeletionErasesIdentity` | backend/internal/repository/account_deletion.sql.go:101-211 | user, tokens, codes and blocks of the account go, its devices survive unlinked and revoked, everything else is unchanged |
| `AccountDeletion.NoTraceRemains` | backend/internal/repository/store.go:316-357 | after the last statement no row of any table names the account |
| `AccountDeletion.SecondRunIsNoop` | backend/internal/repository/store.go:312-315 | deleting again, at any later time, changes nothing |
| `AccountDeletion.ReportsKept` | backend/internal/repository/account_deletion.sql.go:138-158 | a report survives exactly when another account filed it and its target is not the account's cat or media; update targets never matter |
| `AccountDeletion.ReportsLeftBehind` | backend/internal/repository/store.go:331-333 | a surviving report loses its target exactly when it names an update the deletion removed |
| `Witnesses.ReportOutlivesUpdate` | backend/internal/repository/store.go:331-333 | a concrete run after which a deletion removes an update and leaves a report of it |
| `Effects.PostStored` | backend/internal/repository/store.go:151-204 | an accepted post leaves one new row with the request's columns, exactly its statuses, its photo in the archive and one unprocessed outbox row; every other row of every table is unchanged |
| `Effects.VisibleCatMeans` | backend/internal/repository/cats.sql.go:14-21 | a post reaches exactly the cats that are there, not removed and not owned by someone the caller blocks |
| `Effects.StatusSetMeans` | backend/internal/service/cats.go:2233-2251 | a status set is each of seen, fed and water_provided at most once, nothing else, and empty only if allowed |
| `Effects.UpdateDeleted` | backend/internal/repository/updates.sql.go:245-258 | a matched delete stamps its row and changes nothing else |
| `Effects.DeviceLinked` | backend/internal/service/auth.go:486-524 | linking writes the one device's account, gives exactly that device's unattributed updates their author, and leaves every other device, update and table as it was |
| `Effects.FollowsLinked` | backend/internal/repository/follows.sql.go:80-108 | row by row: a guest follow of the device goes if the account follows the cat itself, and else becomes the account's; no other follow changes |
| `Effects.LinkRefused` | backend/internal/service/auth.go:486-500 | only another account's device is refused, without effect |
| `Effects.DeviceUnlinked` | backend/internal/repository/devices.sql.go:159-181 | clears one device's account, and only if it is the caller's |
| `Effects.PushTokenSet` | backend/internal/repository/devices.sql.go:132-157 | afterwards exactly the one device has the token; all other columns and devices keep theirs |
| `Effects.PushTokenCleared` | backend/internal/repository/devices.sql.go:14-32 | only the token that was rejected is retired |
| `Effects.CatFollowed` | backend/internal/repository/follows.sql.go:38-61 | exactly one follow is added if the cat is visible and neither account nor device follows it yet; otherwise, and besides, nothing changes |
| `Effects.CatUnfollowed` | backend/internal/repository/follows.sql.go:66-78 | exactly the account's follow of the cat goes |
| `Effects.CatCreated` | backend/internal/repository/store.go:125-149 | the new cat is its uploader's, active, with the new media row as cover and only archive entry; nothing else changes |
| `Effects.MediumStored` | backend/internal/repository/media.sql.go:14-72 | a media row is stored as sent exactly if neither its object key nor its key of that uploader is taken |
| `Effects.CoverSet` | backend/internal/service/cats.go:1098-1139 | the cover changes exactly when the owner of a cat not removed names a photo of its archive |
| `Effects.CatRemoved` | backend/internal/repository/cats.sql.go:774-803 | the status changes exactly for the owner; the row and everything else stay |
| `Effects.Notified` | backend/internal/repository/notifications.sql.go:14-52 | a notification of the row's cat and update is stored exactly if the device has none of that update yet |
| `Effects.ReportFiled` | backend/internal/repository/reports.sql.go:14-62 | a report is stored exactly if its target exists |
| `Effects.UserJoined` | backend/internal/repository/users.sql.go:14-44 | an account is created exactly if no account has its phone number |
| `Machine.KeptByStep` | backend/internal/repository/store.go:125-357 | every write keeps all foreign keys, unique indexes, cross-table facts and update rules |
| `Machine.Reachable` | backend/internal/service/cats.go:1411-1547 | in every reachable state: references intact, indexes (Idempotency-Keys included) unique, covers and update media archived, live updates with a status or the flag, approved statuses, an expiry exactly on flagged updates and 72 hours after creation |
| `Machine.DeletionSafeWhenReachable` | backend/internal/repository/store.go:316-357 | from every state reachable by any writes, each prefix of an account deletion keeps every reference, and no row names the account afterwards |
| `Machine.KeptByCreate` | backend/internal/repository/store.go:151-204 | creating an update, with its statuses, archive entry and outbox row, keeps the whole invariant |
| `Machine.KeptByCorrect` | backend/internal/repository/store.go:254-295 | a correction keeps the whole invariant: it never hollows out a row or orphans an expiry |
| `Machine.KeptByCreateCat` | backend/internal/repository/store.go:125-149 | creating a cat with its photo keeps the whole invariant |
| `Machine.LinkedFollowsUnique` | backend/internal/repository/follows.sql.go:80-88 | (user, cat) and (device, cat) stay unique after the redundant delete and after the backfill |
| `History.StepCarriesRows` | backend/internal/repository/updates.sql.go:14-53 | no step rewrites an update's kind, cat, device, media, key, creation time or serial, changes an assigned author, revives it or gives it the flag |
| `History.HistoryNeverRewritten` | backend/internal/repository/updates.sql.go:32-53 | between any two points of any run a serial names one update with one place, author and deletion |
| `HelpMarks.AlertShownIffUnexpiredMark` | backend/internal/service/cats.go:651-673 | reading only the latest live mark shows an alert exactly when some live mark is unexpired |
| `HelpMarks.LatestMark` | backend/internal/repository/cats.sql.go:162-168 | the lateral join returns a live mark with no newer live mark, or there is none |
| `HelpMarks.EligibleIffNoRecentMark` | backend/internal/repository/notification_outbox.sql.go:86-100 | a mark is frozen as eligible exactly when no live earlier mark of the cat is less than 72 hours old |
| `HelpMarks.EligibleIffNoAlert` | backend/internal/repository/notification_outbox.sql.go:86-100 | with marks committed in order, eligible exactly when no alert is shown at the creation instant |
| `HelpMarks.DisagreementIsOvertaking` | backend/internal/repository/notification_outbox.sql.go:91-96 | without that order the two disagree exactly when a later mark overtook and no earlier one is recent |
| `HelpMarks.OvertakenMarkStaysEligible` | backend/internal/repository/notification_outbox.sql.go:95-95 | a concrete consistent state where an alert is shown and the mark is still eligible |
| `HelpMarks.EligibleMarksAreSeparated` | backend/internal/service/cats.go:288-290 | two eligible marks of a cat under 72 hours apart: a step between them cleared, deleted or erased the earlier |
| `Corrections.DiagnosisExact` | backend/internal/service/cats.go:1743-1782 | which cause is reported when several hold: each exactly for its own rows, authorship before deletion before the window before the cover |
| `Corrections.DiagnosisIsReal` | backend/internal/service/cats.go:1743-1782 | the cause reported for zero rows really holds of the tables |
| `Corrections.CorrectionMatchesIffNoCause` | backend/internal/repository/updates.sql.go:32-53 | under SQL nulls a correction matches exactly when no cause holds and the row keeps a status or its flag |
| `Corrections.FailedCorrectionExplained` | backend/internal/service/cats.go:1751-1781 | with no write in between, the answer to a failed correction, invalid statuses included, is true of the row |
| `Corrections.InvalidStatusesUntrueIff` | backend/internal/service/cats.go:1770-1781 | whatever was written before the diagnosis read its tables, that answer is untrue of the row exactly when the correction would match those tables |
| `Corrections.InvalidStatusesReachedByLink` | backend/internal/service/cats.go:1770-1781 | linking the device of a guest's update in between gets there, from every such state |
| `Corrections.DeleteMatchesIffNoCause` | backend/internal/repository/updates.sql.go:245-258 | a delete matches exactly when the diagnosis of the same tables finds nothing |
| `Corrections.FallbackNeedsARace` | backend/internal/service/cats.go:1770-1781 | the not-found fallback for deletes is reached only if the delete would match the tables the diagnosis read, which therefore changed in between |
| `Corrections.FallbackReachedByCoverChange` | backend/internal/service/cats.go:1764-1781 | moving the cover in between reaches it, from every such state |
| `Corrections.CorrectionIsPresenceAware` | backend/internal/service/cats.go:1784-1790 | only the named row changes, in the corrected columns only; omitted fields keep their value, a supplied status set replaces the old one |
| `Corrections.CorrectionIsIdempotent` | backend/internal/repository/store.go:254-295 | repeating a correction at the same instant changes nothing |
| `Corrections.DeleteRetried` | backend/internal/service/cats.go:1922-1961 | a retried delete is diagnosed as already deleted and changes nothing |
| `Corrections.ValidateStatusSet` | backend/internal/service/cats.go:2233-2251 | accepts exactly the sets drawn from the vocabulary without repeats, empty only if allowed |
| `Gallery.StepKeepsCoverShown` | backend/internal/repository/cat_media.sql.go:96-105 | no step of any kind hides the archive entry of a cover that stays the cover, even when updates share the photo |
| `Gallery.RunKeepsCoverShown` | backend/internal/repository/updates.sql.go:245-258 | nor does any run that leaves the cover in place |
| `Gallery.CoversAlwaysArchived` | backend/internal/service/cats.go:1098-1139 | in every reachable state a cover lies in its cat's own archive |
| `Gallery.ArchiveEntriesPersist` | backend/internal/service/cats.go:1121-1136 | over any run that reuses no id, an archive entry checked at its start still exists at its end, if cat and photo do |
| `Gallery.CoverShownIff` | backend/internal/repository/cat_media.sql.go:96-105 | over any run that keeps the cover, its entry is shown at the end exactly when it was at the start or an update posted the photo again |
| `Gallery.ChosenCoverShownIff` | backend/internal/service/cats.go:1121-1129 | a chosen cover is shown at any later point where it is still the cover exactly when its entry was shown when chosen or an update has posted it since |
| `Gallery.HiddenEntryBecomesCover` | backend/internal/service/cats.go:1121-1129 | a hidden entry that is accepted as cover |
| `Linking.LinkMergesFollows` | backend/internal/service/auth.go:486-524 | the account follows exactly its old cats plus the device's unowned ones, others' follows and attributed updates are untouched, nothing of the device stays unowned |
| `Linking.OwnFollowsStay` | backend/internal/repository/follows.sql.go:80-88 | the account's own follow rows are kept as they are |
| `Linking.LinkIsIdempotent` | backend/internal/service/auth.go:474-485 | linking again changes nothing at all |
| `Dispatch.Reachable` | backend/internal/service/notifications.go:74-172 | every run of workers, aborts and other writes keeps the locks, claims, pending rows, marks and pushes sound and the tables consistent |
| `Dispatch.CommitWrites` | backend/internal/service/notifications.go:76-108 | a commit stamps exactly the batch's rows, stores exactly its notifications and writes nothing else |
| `Dispatch.ProcessedAtMostOnce` | backend/internal/repository/notification_outbox.sql.go:14-25 | an outbox row is committed as processed at most once |
| `Dispatch.NotificationsJustified` | backend/internal/service/notifications.go:76-172 | committed notifications are unique per device and update, and each was eligible, flagged and undeleted at its claim and sent to a recipient, at identified earlier points of the run |
| `Dispatch.RecipientMeans` | backend/internal/repository/follows.sql.go:204-218 | a recipient is an unrevoked device of a follower who is not the author and does not block the cat's owner, under SQL nulls |
| `Dispatch.NoOtherBatchNotifies` | backend/internal/repository/notification_outbox.sql.go:14-25 | two open batches never work on the same update |
| `Dispatch.PastIsHistory` | backend/internal/service/notifications.go:74-107 | the recorded past is the sequence of committed tables of the run |
| `Dispatch.PushedTwiceMeansAborted` | backend/internal/service/notifications.go:76-107 | one device is pushed one row twice only from two batches, one of them rolled back |
| `Repeats.RolledBackPushIsRepeated` | backend/internal/service/notifications.go:76-107 | in any run, rolling a batch back after a push and trying again with nothing changed pushes the device a second time |
| `Witnesses.OthersRunMachine` | backend/internal/service/notifications.go:74-107 | without workers the protocol's tables are those of the run of the other writes |
| `Witnesses.PushSentTwice` | backend/internal/service/notifications.go:76-107 | a concrete run from the empty database that pushes one row to one device twice |
| `FanOut.NoticeKeptOrErased` | backend/internal/repository/account_deletion.sql.go:87-99 | a committed notification is in the table unless an identified account deletion removed it |
| `FanOut.EveryRecipientNotified` | backend/internal/service/notifications.go:111-172 | every row marked processed was claimed at an identified moment; if it was then an eligible, flagged, undeleted mark, every device that was a recipient at a later identified moment has its notification in the table, unless an identified account deletion removed it |
| `Pushes.NoPushWithoutToken` | backend/internal/service/notifications.go:141-155 | every push went to a device that had a non-empty token at the identified step where its batch read the row's recipients |
| `Pushes.NotifiedDeviceIsPushed` | backend/internal/service/notifications.go:123-155 | every committed notification whose device had a non-empty token when the recipients were read was pushed for the same row |
| `Pushes.TodoKnown` | backend/internal/service/notifications.go:111-147 | a recipient still to be served is still stored and is served with the token it had when it was read |
| `Sessions.Reachable` | backend/internal/service/session.go:159-234 | every interleaving of logins, refreshes, logouts and account deletion keeps the chains sound |
| `Sessions.OneSuccessorEach` | backend/internal/repository/refresh_tokens.sql.go:83-90 | a token has at most one successor, of the same account, and is revoked once it has one |
| `Sessions.OneActivePerLogin` | backend/internal/service/session.go:149-158 | at most one token of a login's chain is active |
| `Sessions.NeverRevived` | backend/internal/repository/refresh_tokens.sql.go:66-90 | a token once revoked or erased is never active again |
| `Sessions.LostIffInsertFailed` | backend/internal/service/session.go:189-217 | in any run a revoked token that was not logged out has no successor and no call about to mint one if and only if the insert of a call that had won its revoke failed |
| `Sessions.RotatedMeansSucceeded` | backend/internal/service/session.go:189-217 | a stored token not logged out, whose own rotation is not under way and did not fail, is revoked exactly when it has a successor, however others rotate |
| `Sessions.TransactionsLoseNothing` | backend/internal/service/session.go:189-207 | so with a transaction runner every token |
| `Sessions.RotationLostWithoutTx` | backend/internal/service/session.go:209-217 | without one, a run that leaves a revoked token with no successor |
| `SessionCode.SessionService.Refresh` | backend/internal/service/session.go:159-217 | the code under interference: each pre-check answer exactly by the row as read; then the call's own revoke, at an identified step, decides between the exchange, a failed insert and a lost race; with no step of others in between an active token is always exchanged |
| `SessionCode.SessionService.Revoke` | backend/internal/service/session.go:219-234 | a spent token is left alone, any other is revoked by this call and logged out; afterwards it is spent, whatever others did |
| `Otp.ConsumedAtMostOnce` | backend/internal/repository/otp_codes.sql.go:14-29 | the compare-and-set matches a code's row in at most one step of any run |
| `Otp.ConsumedOnlyWhenValid` | backend/internal/repository/otp_codes.sql.go:14-29 | when it matches, the row is its phone's latest, unconsumed, under its limit and unexpired by the clock its call read at an identified earlier step, and the presented hash is its own |
| `Otp.OneSessionPerCode` | backend/internal/service/auth.go:228-337 | at most one session per code, and only for a consumed one |
| `Otp.LostIffIssueFailed` | backend/internal/service/auth.go:283-337 | in any run a consumed code has no session and no call about to issue one if and only if the session of the call that had consumed it failed |
| `Otp.ConsumedIffOneSession` | backend/internal/service/auth.go:283-337 | a code whose own session is not under way and did not fail is consumed if and only if exactly one session was issued for it |
| `Otp.TransactionsPairSessions` | backend/internal/service/auth.go:283-310 | so with the transaction runner every code |
| `Otp.CodeLostWithoutTx` | backend/internal/service/auth.go:312-337 | without one, a run that spends a code on no session |
| `Otp.ExhaustedNeverConsumed` | backend/internal/repository/otp_codes.sql.go:14-29 | once its attempts are used up a code is never consumed, whatever was in flight |
| `Otp.GuessesAreLoad` | backend/internal/service/auth.go:268-276 | the wrong guesses compared with a stored code are its counted attempts plus the calls about to count |
| `Otp.LimitHoldsIffInTurn` | backend/internal/service/auth.go:255-276 | the limit bounds the wrong guesses of a stored code if and only if each was compared while fewer than the limit had been, counted or not |
| `Otp.LimitHoldsWithoutOverlap` | backend/internal/service/auth.go:255-276 | so it does if no two wrong guesses of the code overlap |
| `Otp.GuessesOvershootTheLimit` | backend/internal/service/auth.go:255-272 | a run in which two overlapping wrong guesses count past it |
| `OtpService.AuthService.GetLatestOtpCode` | backend/internal/repository/otp_codes.sql.go:96-102 | returns a code of the phone with none created later, or there is none |
| `OtpService.AuthService.VerifyOtp` | backend/internal/service/auth.go:228-337 | the code under interference: each answer exactly by the newest row as read or by the compare-and-set at an identified step; with no step of others in between, the right code of the only newest row verifies; a success means consumed with this only session |
| `Uploads.Reachable` | backend/internal/service/media.go:585-671 | every interleaving of uploads and cat creations keeps rows unique, objects held once and results true |
| `Uploads.OneRowPerKey` | backend/internal/repository/media.sql.go:14-19 | at most one row per kind, owner and Idempotency-Key |
| `Uploads.RetriesAgree` | backend/internal/service/media.go:596-671 | all successful calls with one key return the same row, and it is theirs |
| `Uploads.BalanceIsHistory` | backend/internal/service/media.go:650-671 | in any run an object has no row exactly when a lost put, a failed cleanup or a death left it behind, and a row has no object exactly when the cleanup after a commit reported as failed deleted it |
| `Uploads.QuiescentBalance` | backend/internal/service/media.go:650-671 | with no call running the objects are those that rows name, each by one, and no such cleanup deleted, plus those left behind |
| `Uploads.ObjectsAreRowsIff` | backend/internal/service/media.go:650-671 | so they are exactly those named by rows if and only if no step of the run left one behind or deleted a row's |
| `Uploads.PhotosHaveTheirCats` | backend/internal/repository/store.go:125-149 | with the inserts of a creation committing together, every media row of a cat creation is some cat's photo, in every interleaving |
| `Uploads.CatsHaveTheirPhotos` | backend/internal/service/cats.go:2141-2225 | a cat exists only with its photo's row, and with the photo's object exactly when no call that doubted its commit deleted it |
| `Uploads.CatWithoutPhoto` | backend/internal/service/cats.go:2195-2225 | a run that leaves a cat without its photo's object |
| `UploadService.Uploader.Handle` | backend/internal/service/media.go:585-671 | the code under interference: an existing row answers; else the insert at an identified step decides, faults being inputs; a success names a row of this very request, a failure has a fault or a rejection, and every path but success cleans up |
| `NotificationCode.NotificationService.ClaimBatch` | backend/internal/repository/notification_outbox.sql.go:14-25 | claims distinct unprocessed, unlocked rows, oldest first and none older left out, up to the limit, and all of them if there are fewer |
| `NotificationCode.NotificationService.DispatchPending` | backend/internal/service/notifications.go:74-109 | claims the oldest free rows first, fans out and commits under interference; it succeeds exactly if no statement it ran is the one that fails, then with every claimed row committed as processed, once; a failure ends in a rollback |
| `NotificationCode.RecipientStored` | backend/internal/service/notifications.go:123-139 | when a recipient is served its device, cat and update are stored, so the insert breaks no foreign key |
| `Retries.Reachable` | backend/internal/service/cats.go:1411-1547 | every interleaving of keyed posts with all other writes keeps the whole invariant of the tables |
| `Retries.RetriesAgree` | backend/internal/service/cats.go:1426-1435 | two answered calls with one author and key got the same update, unless an identified account deletion removed the earlier answer's between the two answers |
| `Retries.AnswerWasRow` | backend/internal/service/cats.go:1576-1583 | every answer was, at the moment it was given, an update of that author with that key |
| `Retries.RowKeptOrRemoved` | backend/internal/repository/updates.sql.go:297-316 | between any two points of any run a keyed update stays findable unless an account deletion removed it |
| `Retries.ErasureFreesKeyIff` | backend/internal/repository/account_deletion.sql.go:160-185 | an account deletion frees a key exactly when the account wrote its update or owns its cat |
| `Retries.FallbackFinds` | backend/internal/service/cats.go:1499-1508 | a lost race ran, at an identified insert of the call, into an update of its author and key, which is there to be found unless an identified account deletion removed it since |
| `Retries.DeletedStillAnswers` | backend/internal/repository/updates.sql.go:297-316 | after its author deleted the update the key is still answered with it and nothing else |
| `Retries.OneOutboxRowPerKey` | backend/db/migrations/00021_add_update_idempotency_key.sql:15-16 | in any run a key is queued for notification at most once at a time |
| `PostingCode.UpdatesService.Post` | backend/internal/service/cats.go:1411-1547 | the code under interference: an earlier update with the key answers; else the checks and insert at an identified step decide, and after a lost race the second lookup at another; faults are inputs, and without one every accepted post is answered |
| `Keyset.PagesAreWholeList` | backend/internal/service/cats.go:1298-1373 | for any strict total order, table and page size, the pages of followed cursors are the whole ordered list |
| `Keyset.RestBeyondNext` | backend/internal/repository/updates.sql.go:432-440 | after a page exactly the unlisted rows remain, fewer than before |
| `Keyset.ChainAscends` | backend/internal/service/cats.go:1298-1373 | whatever happens between requests, a page chain is strictly ordered and serves only rows that were there |
| `Keyset.ChainServes` | backend/internal/service/cats.go:1298-1373 | a finished chain serves every row that was there throughout |
| `Cursors.Base64RoundTrip` | backend/internal/service/cats.go:2256-2268 | every byte string survives unpadded URL-safe base64 |
| `Cursors.EncodedForm` | backend/internal/service/cats.go:2256-2259 | the encoding is unpadded and stays in the alphabet of section 5 of RFC 4648 |
| `Cursors.GroupBits` | backend/internal/service/cats.go:2256-2259 | four letters carry the 24 bits of three bytes, most significant first |
| `Cursors.UpdatesCursorRoundTrip` | backend/internal/service/cats.go:2256-2282 | every 64-bit position survives the update cursor, which is never empty |
| `Cursors.UpdatesCursorExact` | backend/internal/service/cats.go:2261-2282 | a cursor names a position exactly if it is base64 of two 64-bit integers around the first colon |
| `Cursors.InboxCursorRoundTrip` | backend/internal/service/notification_inbox.go:172-198 | the same for the inbox cursor, given the id text form round-trips |
| `Cursors.DiscoverCursorRoundTrip` | backend/internal/service/cats.go:392-417 | the same for the discover cursor, given the float and id text forms round-trip |
| `Listings.ServeAnswers` | backend/internal/service/cats.go:1255-1296 | each limit outside 0 to 50 and each unreadable cursor is refused; pages have at most the asked size, 20 by default, and are full unless they are the last |
| `Listings.CollectIsWholeList` | backend/internal/service/cats.go:1255-1374 | sending each text cursor back until it is empty collects the whole list, for every accepted limit |
| `Listings.UpdateHistoryPages` | backend/internal/service/cats.go:1255-1374 | so for update history |
| `Listings.HistoryServes` | backend/internal/repository/updates.sql.go:413-443 | a client collects exactly the cat's undeleted updates, marks and others, each once, newest first |
| `Listings.PlacesAreRows` | backend/internal/repository/updates.sql.go:413-443 | each served place is exactly one undeleted update of the cat |
| `Listings.DiscoverPages` | backend/internal/service/cats.go:724-832 | so for both discover filters at a fixed clock |
| `Listings.DiscoverServes` | backend/internal/repository/cats.sql.go:338-500 | a client collects exactly the active cats whose owner it does not block, for needs_help those with a live mark under 72 hours old, each once at its distance, nearest first |
| `Listings.NeedsHelpRefinesNearby` | backend/internal/repository/cats.sql.go:338-379 | the query's three-valued filter on the joined columns and the alert derived from them agree: the needs_help list is the nearby list restricted to the cats whose alert the same request shows |
| `Listings.NeedsHelpListsRecentMarks` | backend/internal/repository/cats.sql.go:338-379 | in consistent tables those are the nearby cats with any live mark less than 72 hours old |
| `Listings.ShownAlertIsNewestMark` | backend/internal/service/cats.go:651-673 | a shown alert is that of the cat's newest live mark and expires 72 hours after it |
| `Listings.InboxPages` | backend/internal/service/notification_inbox.go:95-150 | so for the inbox |
| `Listings.InboxServes` | backend/internal/repository/notifications.sql.go:54-70 | a client collects exactly the notifications of the devices that are its account's now, each once, newest first |
| `Listings.ChainNeverRepeats` | backend/internal/repository/updates.sql.go:413-443 | with any writes between requests, a history chain is strictly ordered and never serves an update twice |
| `Listings.ChainServesTheSteady` | backend/internal/service/cats.go:1298-1373 | and serves every update of the cat that was there, undeleted, at each request |
| `Boxes.WrapCheckIsExact` | backend/internal/service/media.go:133-135 | under 64-bit wraparound the bounds check refuses exactly the sizes that do not fit |
| `Boxes.WalkIsContiguous` | backend/internal/service/media.go:114-141 | on any bytes the boxes are contiguous from the start, disjoint and inside the buffer |
| `Boxes.FindBox` | backend/internal/service/media.go:114-141 | the loop, in wrapping arithmetic with every slice in range, finds the first box of a type |
| `Boxes.SerialisedListIsWalked` | backend/internal/service/media.go:114-141 | any serialised box list, in any mix of 32-bit, 64-bit and to-the-end sizes, is walked back exactly |
| `Boxes.VideoDurationSeconds` | backend/internal/service/media.go:148-201 | the float64 quotient of the duration and timescale found, or malformed, on any bytes |
| `Boxes.RoundingDecidesNothing` | backend/internal/service/media.go:329-338 | the rounded quotient is positive, or over 30, exactly when the exact one is |
| `Boxes.ProcessVideo` | backend/internal/service/media.go:325-340 | accepts exactly the buffers within the size limit whose duration is positive and at most 30 seconds, as an exact comparison |
| `Boxes.DurationReadBack` | backend/internal/service/media.go:148-201 | for any file whose first moov and mvhd have 8-byte headers, of either size form, the version 0 or 1 timescale and duration written are read back |
| `Boxes.LargeMoovRefused` | backend/internal/service/media.go:162-170 | under 4 GiB, a moov with a 16-byte header yields a duration only at size 0x6D766864 |
| `Boxes.LargeMvhdMisread` | backend/internal/service/media.go:172-200 | an mvhd with a 16-byte header is read as creation and modification time, or as the two halves of a 64-bit creation time |
| `Boxes.DurationReadIff` | backend/internal/service/media.go:148-201 | under 4 GiB, the timescale and duration written are read back exactly when both headers have 8 bytes, but for the numbers the misread bytes happen to spell |
| `Boxes.HourReadAsSecond` | backend/internal/service/media.go:172-200 | a file whose header says an hour and whose duration is read as a second |
| `Exif.ExifOrientationFromApp1` | backend/internal/service/media.go:386-427 | the IFD scan stays in range on any bytes and returns only 1 to 8 |
| `Exif.JpegExifOrientation` | backend/internal/service/media.go:351-379 | the marker scan stays in range on any bytes and returns only 1 to 8 |
| `Exif.OrientationExact` | backend/internal/service/media.go:351-379 | on any bytes: the orientation of the first marker segment that holds one, else 1, the segments before it being named |
| `Exif.App1Exact` | backend/internal/service/media.go:386-427 | on any bytes: a payload holds an orientation exactly if both headers are right and the first orientation entry of IFD0 lies inside with a value of 1 to 8 |
| `Exif.OrientationReadBack` | backend/internal/service/media.go:351-427 | an orientation written in either byte order, anywhere in IFD0, behind any segments without one, is the one returned |
| `Pixels.SourceInside` | backend/internal/service/media.go:435-468 | every remapping reads inside the source image |
| `Pixels.UndoRestores` | backend/internal/service/media.go:447-468 | 6 and 8 undo each other and every other value undoes itself |
| `Pixels.EachPixelLandsOnce` | backend/internal/service/media.go:447-468 | every stored pixel lands at exactly one place |
| `Pixels.UprightIsDisplayed` | backend/internal/service/media.go:428-434 | the pixel placed at each position is the one section 4.6.4 of Exif 2.32 displays there |
| `Pixels.ApplyExifOrientation` | backend/internal/service/media.go:435-477 | the loop fills the upright image, from any bounds origin, pixel by pixel with its source; other values return the image |
| `Badges.BadgeProgress` | backend/internal/service/badges.go:122-212 | for events in any order each status is earned exactly when its total reaches the target, at the least time whose inclusive past does |
| `Badges.EarnedMeans` | backend/internal/service/badges.go:122-212 | the five badges: one update with seen, five feedings, five waterings, ten cats seen, 25 cats in any way |
| `Badges.CountStatuses` | backend/internal/service/badges.go:143-170 | the inner loop keeps counts, sets and thresholds in step with the events read so far |
| `Badges.CrossingIsEarnedAt` | backend/internal/service/badges.go:143-178 | the crossing event's time is the least time whose inclusive past reaches the target |
| `Badges.StatusOrderFree` | backend/internal/service/badges.go:108-111 | the result does not depend on the order of the events |
| `Badges.MoreEventsKeepBadges` | backend/internal/service/badges.go:122-212 | adding events never un-earns a badge, lowers its value or moves its time later |
| `Stores.KeysAreDeletedPlusArchived` | backend/internal/repository/account_deletion.sql.go:213-223 | the returned keys are those of all deleted media plus exactly those of others' media in the account's cats' archives |
| `Stores.SurvivorLosesObjectIff` | backend/internal/repository/account_deletion.sql.go:213-223 | a surviving media row loses its object exactly when it is in such an archive |
| `Stores.BalanceKeptIff` | backend/internal/service/accounts.go:67-82 | objects and rows stay in balance exactly when there is no such photo |
| `Witnesses.SurvivorLosesObject` | backend/internal/repository/account_deletion.sql.go:213-223 | a concrete run after which a deletion keeps another account's media row and lists its object for removal |
| `Stores.Store.DeleteAccount` | backend/internal/repository/store.go:316-357 | the loop over the statements: all of them or, on a fault, none; no foreign key fails |
| `Stores.Store.GetUpdateByIdempotencyKey` | backend/internal/repository/updates.sql.go:297-316 | finds the author's update with the key, deleted or not, or there is none |
| `Stores.Store.CreateOrdinaryUpdate` | backend/internal/service/cats.go:1411-1547 | each answer for exactly its requests: an earlier update with the key, an invalid set, an unknown cat or photo, a failed statement, else the specified write |
| `Stores.Store.InsertUpdate` | backend/internal/repository/store.go:151-204 | row, status loop, archive and outbox add up to the specified write, or a fault at any statement leaves nothing |
| `Stores.Store.CreateCatWithMedia` | backend/internal/repository/store.go:125-149 | media row, cat and archive entry add up to the specified write, or a fault at any statement leaves nothing |
| `Stores.Store.CorrectOwnUpdate` | backend/internal/service/cats.go:1821-1912 | corrects as specified or changes nothing; each answer for exactly its rows, a deleted row answering like an unknown one |
| `Stores.Store.DeleteOwnUpdate` | backend/internal/service/cats.go:1927-1961 | deletes as specified or changes nothing; each answer for exactly its rows, already done only for the author's own deleted update |
| `Stores.Store.LinkDevice` | backend/internal/service/auth.go:486-524 | the four statements, uniqueness holding after each |
| `Stores.AccountsService.Delete` | backend/internal/service/accounts.go:54-84 | fails exactly if a statement does; an absent account is a success without effect; otherwise the deletion and, after it, the removal of the listed objects |

## Left out

- HTTP handlers, routing, JSON, authentication headers, configuration: request plumbing.
- SMS, push, object-store and moderation vendors: a send, put or delete is a step that succeeds or fails.
- JWT signing, token and code hashing, random generation: fresh or opaque values.
- PostGIS: `Listings.DiscoverPages` takes each cat's distance as a given number.
- Image decoding and encoding, colour models, contact sheets.
- `last_update_at`, renaming, mark-read, the resend cooldown, profile and traits reads: thin single-statement behaviour.
- Statements of the SQL are atomic steps; isolation levels below that are not modelled.
- Uploads.QuiescentBalance: account deletion racing an upload is not modelled.
- Uploads.PhotosHaveTheirCats: the inserts of a cat creation are one step of the protocol; their rollback is `Stores.Store.CreateCatWithMedia`.
- Dispatch.NotificationsJustified: a claim may return any unlocked unprocessed rows, a generalisation of the oldest fifty; retiring an invalid push token is one of the other writes rather than part of the batch's transaction.
- Dispatch.PushedTwiceMeansAborted: only this direction holds; a rolled-back batch need not be followed by a repeated push.
- PostingCode.UpdatesService.Post: for requests with a key; the checks and the transaction after them are one step, as in `Machine`, so a cat deleted in between is not seen.
- Retries.RetriesAgree: the comment, statuses and cat of a retry are not compared with the original's, as in the code.
- Gallery.CoversAlwaysArchived: the ownership and archive checks of `SetCoverPhoto` and its write are one step; `Gallery.ArchiveEntriesPersist` covers the gap between them.
- Boxes.VideoDurationSeconds: float64 rounding is a parameter, of which monotonicity, exactness on integers up to 2^53 and the relative error bound are used.
- Cursors.DiscoverCursorRoundTrip: the float and UUID text forms are hypotheses, one value at a time.
- Badges.BadgeProgress: the stable library sort is modelled by an insertion sort on the same key.
