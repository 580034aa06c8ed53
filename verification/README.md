# Synveil: a verified model of its protocols, selection rules and codecs

A Dafny 4.11 model of the parts of Synveil whose correctness rests on interleavings, crashes or the exact handling of
text, with proofs about every input, every run or every reachable state. `dafny verify dfyconfig.toml` checks it.

| component | files |
|---|---|
| iOS background refresh | `RefreshModel` (state machine), `RefreshWithdrawal`, `RefreshSubmission`, `RefreshDelivery`, `RefreshConfirmation`, `RefreshExpiry`, `RefreshRequests`, `RefreshOutcome`, `RefreshProgress` (one theorem family each), `DeliveryObject` (the shared delivery as an object) |
| release trust chain | `Versions`, `ChannelFormat`, `Signatures`, `ReleaseChannel`, `ReleaseManifest`, `Transport`, `HighWaterStore`, `Staging`, `Acquire` |
| signing tool | `PublishPair` |
| reproducible Qt wrapper | `QtDeclarations`, `QtSource`, `QtOrder`, `QtResources`, `XmlText` |
| browser cookies and CSRF | `Cookies`, `Csrf` |
| shared | `Options`, `Bytes`, `Decimal`, `Text`, `Sorting` |

How the model is set up:

- **Protocols are state machines over their atomic steps.** In the scheduler a step is one stretch of MainActor code
  between two suspension points, or one lock body of a delivery, with any number of suspended calls. In the file
  protocols a step is one system call. Every choice of the environment (identities, power state, clock, write failures,
  server answers, expirations, crashes, other processes) is an argument of an action, so "every run" means every sequence
  of actions, and `Exec` folds a run into the state it reaches.
- **Every lock body is a step of its own.** `invalidate` and `setNetwork` call `expire` on the active delivery: they take
  its first lock body and leave a suspended expiration behind whose second lock body may run at any later moment. That
  allows every run of the app and more.
- **A run spans processes.** It starts from any stored policy and at most one native request that an earlier process left
  pending. `Relaunching` is a step: suspended calls, revision, withdrawal flag, confirmation and delivery objects are
  gone; what is on disk and the pending request stay. A process that cannot read the store takes it for disabled and
  leaves its bytes alone.
- **Objects and loops keep their form.** Where the original updates fields or loops, there is a class or a method with a
  loop, proved against a specification function; the theorems are about that function. The scheduler itself is the
  exception, see below.
- **What cannot happen and what must.** Each protocol has theorems over all runs that say what never happens, and beside
  them theorems that say when an operation must succeed: from every reachable state, an operation that is not disturbed
  and whose environment answers well ends as its documentation promises; a failure always has a cause in the run.
  Checks are characterised in both directions, with the literal texts and numbers of the original.
- **Digests, signatures, MACs, JSON decoding and URL parsing are arbitrary functions.** No digest is assumed to be
  injective: where a result would need that, it says "equal, or these two byte strings collide".
- **A failed policy write** may have left its bytes on disk all the same, or the old ones; in both cases the process
  reads the store as disabled from then on, and the next one reads what is on disk. A store that refuses a write without
  any effect is allowed too; the environment chooses. So an opt-in is in force when its write was confirmed, or, once a
  later process has been launched, when its bytes reached the disk although it was reported as failed. The policy store
  only ever returns policies that are valid when enabled (`StoredPolicyValid`).
- **Text is a sequence of characters.** Python and Rust strings, ASCII header bytes and file names are modelled so;
  hashed content is a sequence of bytes.

Where a property is false of the code, a failing input is given and the exact condition is proved:

- A context parsed under a policy whose byte limit exceeds the module's own limit need not re-validate, nor one whose
  evidence names an empty key: `ReleaseChannel.LooseLimitBreaksRevalidation` and
  `ReleaseChannel.EmptyKeyBreaksRevalidation` are inputs, `ReleaseChannel.ParsedContextRevalidates` says exactly when it
  does.
- The Qt declaration normaliser moves an unterminated last line without adding a newline, so it can join two
  declarations on one line: `QtSource.UnterminatedLastLineIsJoined` is a source, `QtSource.LinesSurviveIff` says exactly
  when the lines survive. Idempotence and the erasure of nondeterminism hold even then.
- The key function of that normaliser cuts one byte after a separator and aborts when the separator is a whitespace
  character of several bytes: `QtSource.WideSeparatorAborts` is a source, `QtDeclarations.NormalizeLines` and
  `QtSource.NormalizeText` say exactly when it happens. The documentation of the function promises only reordering.
- A process crash between the two hard links of the signing tool leaves the signature without its descriptor:
  `PublishPair.CrashLeavesHalf` is such a run, `PublishPair.AllOrNothingIff` the exact condition over all runs.
- A withdrawal need not survive its process: `RefreshWithdrawal.UnwrittenWithdrawalIsForgotten` gives one over every
  enabled policy, `RefreshWithdrawal.WithdrawalBindsIff` the exact condition over all runs and all calls that withdraw:
  the policy on disk was disabled already, or the write left its bytes there. Within its process every withdrawal binds
  (`RefreshWithdrawal.NothingAfterWithdrawalWithoutOptIn`).

## Model

| member | source | states |
|---|---|---|
| `RefreshWithdrawal.NothingAfterWithdrawalWithoutOptIn` | clients/ios/App/BGAppRefreshScheduler.swift:178-337 | in every run, at a native submission or an admitted delivery after a withdrawal an opt-in is in force whose call began after it; this holds within the process whatever became of the write, and in all later processes if the disk was left disabled |
| `RefreshWithdrawal.WithdrawalBindsIff` | clients/ios/App/BGAppRefreshScheduler.swift:284-300 | for every run that ends with a withdrawal, by whichever call: it is respected in every continuation over any number of processes if and only if the policy on disk was disabled before or the write left its bytes there |
| `RefreshWithdrawal.EnabledDiskIsUsed` | clients/ios/App/BGAppRefreshScheduler.swift:327-343 | from every reachable state with an enabled policy on disk there is a continuation in which the next process admits a delivery without a new opt-in |
| `RefreshWithdrawal.UnwrittenWithdrawalIsForgotten` | clients/ios/Infrastructure/Persistence/BackgroundSyncPolicyStore.swift:25-34 | over every enabled policy a withdrawal whose bytes do not reach the disk is one that does not bind later processes |
| `RefreshSubmission.AtMostOneRequest` | clients/ios/App/BGAppRefreshScheduler.swift:178-240 | in every run, relaunches and a request left pending by an earlier process included, at most one native request is outstanding, and `scheduling` is set exactly while one `schedule` call is suspended |
| `RefreshSubmission.SubmissionsFollowTheirPolicy` | clients/ios/App/BGAppRefreshScheduler.swift:190-230 | in every run each submission happens under the enabled policy, grant and identity its `schedule` call read when it began |
| `RefreshSubmission.SubmissionsAreSpaced` | clients/ios/App/BGAppRefreshScheduler.swift:218-230 | in every run, relaunches included, two submissions are at least the scheduling delay apart unless an opt-in between them is in force at the second |
| `RefreshRequests.SubmissionsSeeNoChange` | clients/ios/App/BGAppRefreshScheduler.swift:187-232 | in every run no invalidation, network change or relaunch lies between a submission and the start of its call |
| `RefreshRequests.PendingIsRecent` | clients/ios/App/BGAppRefreshScheduler.swift:268-290 | in every run a pending request was submitted after every invalidation and network change, for these cancel |
| `RefreshProgress.NothingWithoutPower` | clients/ios/App/BGAppRefreshScheduler.swift:196-330 | in every run no step taken while background refresh is unavailable or in low power mode submits or admits anything |
| `RefreshProgress.SubmitsIff` | clients/ios/App/BGAppRefreshScheduler.swift:212-232 | a resumed `schedule` submits exactly when its revision and grant are current, the policy is on, power is there, nothing is pending, the cooldown is over and the write is stored |
| `RefreshProgress.UndisturbedScheduleSubmits` | clients/ios/App/BGAppRefreshScheduler.swift:178-240 | from every reachable state in which `schedule` may go through, the undisturbed call ends with one submission, one pending request and a cooldown of six hours |
| `RefreshProgress.IneligibleScheduleCancels` | clients/ios/App/BGAppRefreshScheduler.swift:178-201 | a `schedule` that is withdrawn, off, not set up or without power cancels what is pending and changes nothing else |
| `RefreshProgress.MissingIdentityStops` | clients/ios/App/BGAppRefreshScheduler.swift:202-206 | without an identity `schedule` cancels and `refreshStatus` shows no confirmation |
| `RefreshProgress.OtherIdentityWithdraws` | clients/ios/App/BGAppRefreshScheduler.swift:208-211 | an identity other than the stored one withdraws, in `schedule` and in `refreshStatus` |
| `RefreshProgress.InvalidationTakesEffect` | clients/ios/App/BGAppRefreshScheduler.swift:284-300 | invalidating cancels, hides the confirmation, expires the active delivery and starts a new revision; only a withdrawal touches the policy |
| `RefreshProgress.UndisturbedOptIn` | clients/ios/App/BGAppRefreshScheduler.swift:241-264 | from every reachable state an undisturbed opt-in turns refresh on for that identity under a grant never stored before, without cooldown or cursor |
| `RefreshProgress.OptInLeadsToSubmission` | clients/ios/App/BGAppRefreshScheduler.swift:241-266 | from every reachable state that is set up and idle, an opt-in followed by a `schedule` ends with a submission for that identity |
| `RefreshProgress.NetworkTakesEffect` | clients/ios/App/BGAppRefreshScheduler.swift:268-280 | a stored network change keeps identity and cooldown, takes a fresh grant and cancels |
| `RefreshProgress.CursorAdvances` | clients/ios/Application/Sync/BackgroundSyncCoordinator.swift:94-110 | the sync coordinator moves its cursor in the stored policy and nothing else |
| `RefreshDelivery.OperationsNeverOverlap` | clients/ios/App/BGAppRefreshScheduler.swift:327-361 | in every run at most one `operation` call is running |
| `RefreshDelivery.CompletedExactlyOnce` | clients/ios/App/BGAppRefreshScheduler.swift:30-55 | in every run no delivery completes twice, and a delivery handed to `deliver` in the present process has completed once no call answers for it |
| `RefreshDelivery.SuccessOnlyWhileAdmitted` | clients/ios/App/BGAppRefreshScheduler.swift:355-387 | in every run a delivery completes with success only if it was admitted, did not expire, saw no revision change, was revalidated, and the enabled policy, grant and identity are those of the admission |
| `RefreshOutcome.SuccessIsEarned` | clients/ios/App/BGAppRefreshScheduler.swift:355-387 | in every run a delivery that reports success was admitted and its operation returned completed, or partial with at least one page |
| `RefreshProgress.AdmitsIff` | clients/ios/App/BGAppRefreshScheduler.swift:327-343 | a delivery is admitted exactly when nothing is active, it has not expired, refresh is on, set up and not withdrawn, and power is there |
| `RefreshProgress.UndisturbedDeliveryReports` | clients/ios/App/BGAppRefreshScheduler.swift:327-387 | from every reachable state in which it may be admitted, an undisturbed delivery is admitted, revalidated and finished, with success exactly for a completed or partly done operation, and what it confirmed is shown |
| `RefreshProgress.RefusedDeliveryFinishes` | clients/ios/App/BGAppRefreshScheduler.swift:329-337 | a delivery that is not admitted finishes at once without success and changes nothing else |
| `RefreshProgress.ExpiredWorkShowsNothing` | clients/ios/App/BGAppRefreshScheduler.swift:355-383 | work that returns after its delivery expired shows no confirmation and reports no success |
| `RefreshProgress.StaleWorkShowsNothing` | clients/ios/App/BGAppRefreshScheduler.swift:363-383 | so does work whose identity, grant or policy has changed |
| `RefreshConfirmation.ConfirmationsAreFresh` | clients/ios/App/BGAppRefreshScheduler.swift:284-383 | in every run a confirmation on show was returned by an operation admitted, or a fetch begun, after the most recent invalidation |
| `RefreshProgress.UndisturbedStatusShows` | clients/ios/App/BGAppRefreshScheduler.swift:301-320 | undisturbed, and for the identity refresh is on for, the status shows exactly the confirmation it fetched |
| `RefreshExpiry.ExpirationReachesTheWorker` | clients/ios/App/BGAppRefreshScheduler.swift:30-46 | in every run the worker of an expired delivery is cancelled once no expiration handler is half way, whether it was installed before or after the expiration |
| `RefreshProgress.UndisturbedExpiryFinishes` | clients/ios/App/BGAppRefreshScheduler.swift:37-55 | an undisturbed expiration marks the delivery, cancels its worker and finishes it without success |
| `DeliveryObject.BackgroundRefreshDelivery.Install` | clients/ios/App/BGAppRefreshScheduler.swift:30-36 | the lock body is the machine's step on that delivery; the worker is to be cancelled exactly when the delivery has expired |
| `DeliveryObject.BackgroundRefreshDelivery.MarkExpired` | clients/ios/App/BGAppRefreshScheduler.swift:37-46 | the lock body is the machine's step, hands out the recorded worker and tells the first expiration |
| `DeliveryObject.BackgroundRefreshDelivery.Complete` | clients/ios/App/BGAppRefreshScheduler.swift:47-55 | the lock body is the machine's step; the completion is called at most once ever, with true only without an earlier expiration |
| `DeliveryObject.BackgroundRefreshDelivery.Expire` | clients/ios/App/BGAppRefreshScheduler.swift:37-55 | undisturbed, it marks and completes; the completion has then been called once, with false unless it was called before |
| `Versions.ParsersAgree` | scripts/windows_lifecycle.py:24-29 | the three version parsers give the same result on every string |
| `Versions.PrintThenParse` | scripts/release_channel.py:97-102 | a printed triple parses back to itself exactly when its components fit 32 bits |
| `Versions.ChannelVersionIff` | scripts/release_channel.py:97-102 | a string parses to a triple exactly when it is that triple printed and the components fit 32 bits |
| `Versions.NativeIsWindows` | scripts/native_upgrade_policy.py:25-33 | the parser that bounds digits in its pattern and the one that splits first agree on every string |
| `Versions.ParseInjective` | scripts/release_channel.py:97-102 | two strings with the same parse are the same string |
| `Versions.TextFits` | scripts/release_channel.py:97-102 | the component bounds imply the limit of 32 characters |
| `Versions.LessIsNumeric` | scripts/release_channel.py:97-102 | comparing parsed versions is comparing one number with the components as digits in base 2^32 |
| `ChannelFormat.ValidateIff` | scripts/release_channel.py:132-166 | a document validates to a channel exactly when it is that channel's document and the channel is valid: bounds, shapes, strictly ascending releases, ascending older sources |
| `ChannelFormat.ValidateChannel` | scripts/release_channel.py:132-166 | the loop over releases that carries the previous version computes that validation, with its error codes |
| `Signatures.ChosenIsLeast` | scripts/release_channel.py:184-198 | the chosen signature is eligible, verifies, and is least among those that do; none is chosen exactly when none verifies |
| `Signatures.ChosenComesFirst` | scripts/release_channel.py:188-198 | every other trusted entry that verifies stands behind the chosen one, by key, scheme, file name and dump in code point order |
| `Signatures.ChosenForgetsOrder` | scripts/release_channel.py:184-198 | the choice does not depend on the order of the list |
| `Signatures.ChooseEntry` | scripts/release_channel.py:189-198 | sorting and trying entries with an early return computes the choice |
| `ReleaseChannel.AuthenticationForgetsOrder` | scripts/release_channel.py:169-198 | two descriptors that list the same signatures in different order authenticate alike, errors included |
| `ReleaseChannel.SignedIff` | scripts/release_channel.py:169-198 | under detached signatures bytes authenticate exactly when they fit the limit, the descriptor describes them, and the verifier vouches for one of its entries with a trusted key and an allowed scheme; the evidence names such an entry |
| `ReleaseChannel.UnverifiedIsRefused` | scripts/release_channel.py:184-198 | a descriptor of the bytes with a trusted entry, none of which verifies, is a failed authentication |
| `ReleaseChannel.UntrustedIsUnsupported` | scripts/release_channel.py:184-187 | without a trusted entry or without a verifier a descriptor cannot authenticate at all, and the failure says so |
| `ReleaseChannel.PinnedIff` | scripts/release_channel.py:174-178 | under a pin bytes authenticate exactly when they fit the limit and have that digest |
| `ReleaseChannel.EvidenceAccepted` | scripts/release_channel.py:201-226 | evidence from authentication passes the evidence checks of parsing exactly when the policy's minimum generation is in range |
| `ReleaseChannel.ParseIff` | scripts/release_channel.py:201-237 | a channel is parsed exactly when the evidence is about these bytes and of the trusted kind, they decode to a valid channel, and its generation is at least the trusted minimum |
| `ReleaseChannel.ParsedContextRevalidates` | scripts/release_channel.py:240-260 | a parsed context re-validates exactly when its bytes fit the module limit and its key and scheme are not empty |
| `ReleaseChannel.LooseLimitBreaksRevalidation` | scripts/release_channel.py:201-260 | bytes one longer than the module limit that authenticate and parse under a looser policy and then fail to re-validate |
| `ReleaseChannel.EmptyKeyBreaksRevalidation` | scripts/release_channel.py:201-260 | evidence with an empty key that parses under a policy trusting it and then fails to re-validate |
| `ReleaseChannel.AuthenticatedContextsRevalidate` | scripts/release_channel.py:169-260 | under a limit no larger than the module's, authentication, parsing and re-validation fit together |
| `ReleaseChannel.ContextBound` | scripts/release_channel.py:240-260 | a context that re-validates is the decoded valid document of exactly its bytes and digest |
| `ReleaseChannel.AcceptanceDominates` | scripts/release_channel.py:263-278 | a channel is accepted exactly when its record dominates the stored one, and then its own record is returned; rollback and equivocation are told apart |
| `ReleaseChannel.SecondEvaluationAccepts` | scripts/release_channel.py:263-278 | evaluating an accepted channel again, against what was accepted, accepts it again |
| `ReleaseChannel.FreshInstallPicksNewest` | scripts/release_channel.py:286-291 | fresh installation takes the numerically greatest release open to it, none exactly when there is none |
| `ReleaseChannel.GreatestIsNumeric` | scripts/release_channel.py:286-301 | the greatest eligible release has the greatest version number |
| `ReleaseChannel.MembershipIsNumeric` | scripts/release_channel.py:143-165 | listing a version string as an upgrade source is listing its number, and it implies that the target is newer |
| `ReleaseChannel.UpgradePicksNewest` | scripts/release_channel.py:294-301 | upgrading takes the numerically greatest release that lists the current version, none exactly when none lists it |
| `ReleaseChannel.FreshSelectionValidates` | scripts/release_channel.py:304-326 | every release a fresh-install selection returns passes `validate_selected_release` |
| `ReleaseChannel.UpgradeSelectionValidates` | scripts/release_channel.py:304-326 | so does every release an upgrade selection returns |
| `ReleaseChannel.SelectedIff` | scripts/release_channel.py:304-326 | a selection is valid exactly when its context re-validates, the release stands at its index, and it is open to fresh installation or lists the current version |
| `ReleaseManifest.AuthenticationForgetsOrder` | scripts/release_download.py:287-338 | two descriptors that list the same signature entries in different order authenticate a manifest alike, the checks of the entries and their errors included |
| `ReleaseManifest.SignedIff` | scripts/release_download.py:300-337 | under detached signatures a manifest authenticates exactly when the descriptor describes its bytes and the verifier vouches for one of the entries with a trusted key and an allowed scheme |
| `ReleaseManifest.PinnedIff` | scripts/release_download.py:293-299 | under a pin a manifest authenticates exactly when it fits the limit and has that digest |
| `ReleaseManifest.ContextIff` | scripts/release_download.py:341-355 | a context is valid exactly when its evidence is about its bytes and they decode to its document |
| `ReleaseManifest.SelectionIff` | scripts/release_download.py:410-418 | a selection is valid exactly when its context is and the artifact stands at its index, or as far from the end |
| `ReleaseManifest.SelectsTheOnlyMatch` | scripts/release_download.py:393-407 | selection succeeds exactly when one artifact has the identity, and returns that one |
| `Transport.OpenHttps` | scripts/release_download.py:240-270 | at most max_redirects + 1 requests, to distinct allowed URLs each joined from the previous Location; only a 200 is returned and every refusal is explained by the last answer |
| `HighWaterStore.WrittenRecordsReadBack` | scripts/linux_quick_install.py:460-482 | every record that can be written fits the 512-byte bound and reads back |
| `HighWaterStore.ReadStateIff` | scripts/linux_quick_install.py:460-472 | a record is read exactly from a file of at most 512 bytes that decodes to its document; every other file is ambiguous |
| `HighWaterStore.ReaderExists` | scripts/linux_quick_install.py:466-471 | a decoder that reads back all written records exists, so the hypothesis on the JSON library can be met |
| `HighWaterStore.NoRollback` | scripts/linux_quick_install.py:445-491 | in every run of lock-serialised installers with crashes and failures at any step, accepted generations never decrease, a generation is accepted with one digest, and the stored record dominates every accepted one |
| `HighWaterStore.FileAlwaysReadable` | scripts/linux_quick_install.py:445-491 | in every such run the file is the initial one or a complete record that reads back |
| `HighWaterStore.UndisturbedCallDecides` | scripts/linux_quick_install.py:445-491 | from every reachable state with a free lock and a readable file an undisturbed call accepts exactly what the evaluation accepts, leaves it on disk, and leaves the lock |
| `HighWaterStore.FailuresHaveCauses` | scripts/linux_quick_install.py:445-491 | in every run a process that ends without accepting failed, crashed or was refused under the lock |
| `HighWaterStore.LockIsLeft` | scripts/linux_quick_install.py:450-458 | in every run the lock is held by a process between taking and leaving it, or by nobody |
| `HighWaterStore.StateFile.Persist` | scripts/linux_quick_install.py:459-491 | an undisturbed call returns the evaluation of the stored record, and what it accepts is on disk and readable |
| `Staging.CopyStream` | scripts/release_download.py:548-572 | the copy loop succeeds exactly on a stream of the authenticated size and digest, copies it byte for byte, tells the failures apart and reads at most size + 1 bytes |
| `Staging.Matches` | scripts/release_download.py:473-497 | the reading loop answers true exactly for a file of the reported and actual size with the digest |
| `Staging.DestinationsNeverChange` | scripts/release_download.py:528-610 | in every run of concurrent stagers with crashes, an existing destination keeps its file and its bytes from then on |
| `Staging.StagedFilesAreAuthentic` | scripts/release_download.py:528-610 | in every run a destination created by a stager has the size and digest that stager was to stage under that name |
| `Staging.ReadsAreBounded` | scripts/release_download.py:552-560 | in every run no stager takes more than size + 1 bytes from its stream |
| `Staging.RerunIsNoop` | scripts/release_download.py:519-540 | once a stager got past its link, crashed or not, a later undisturbed check for the same artifact ends as already verified |
| `Staging.SuccessLasts` | scripts/release_download.py:585-597 | a reported success is true and stays true: the destination holds the authenticated bytes from then on |
| `Staging.FreeTargetIsStaged` | scripts/release_download.py:528-610 | from every reachable state in which the destination is free, an undisturbed stager whose stream has the authenticated size and digest ends verified with exactly those bytes there |
| `Staging.FailuresAreExplained` | scripts/release_download.py:528-610 | in every run a failure and its code are explained by the stream, by who has the name, or by a call of that stager that failed |
| `Staging.NoTemporaryLeft` | scripts/release_download.py:598-610 | in every run a temporary file is left only while it is used, by a crash, or by a failure to remove it |
| `Acquire.SelectionNeverRefuses` | scripts/linux_quick_install.py:419-426 | after acceptance the second evaluation inside selection never refuses; the release is the greatest one open to fresh installation, or there is none |
| `Acquire.OpenedManifestIsBound` | scripts/release_channel.py:341-351 | an opened manifest is the fetched bytes with the release's size, digest, version and commit, and re-validates |
| `Acquire.AcquiredThroughTheChain` | scripts/linux_quick_install.py:396-435 | whatever the servers answer, a success links a channel that is pinned or signed by a trusted key, its greatest release, the bound manifest, the only matching artifact and the staged bytes |
| `Acquire.SucceedsIff` | scripts/linux_quick_install.py:396-435 | a run succeeds exactly when it is provided with a believed channel not older than the trusted minimum and the stored record, the manifest its newest open release binds, exactly one Linux x86-64 native package of the wanted type in it, and that package |
| `Acquire.FailuresAreExplained` | scripts/linux_quick_install.py:396-435 | every failure a run reports is explained by the answers, the stored record or the directory |
| `Acquire.OpenChannelIff` | scripts/linux_quick_install.py:396-418 | a channel opens exactly when its bytes are pinned or signed under the trust policy and decode to a valid channel of at least the trusted generation |
| `Acquire.SameDigestSamePackage` | scripts/linux_quick_install.py:396-435 | two successes over channels with one digest give byte-identical packages of one name and version, or an explicit digest collision |
| `Acquire.SamePinSamePackage` | scripts/linux_quick_install.py:398-400 | the same for two runs with one pinned digest, whatever servers, records and directories were |
| `Acquire.SecondRunIsNoop` | scripts/linux_quick_install.py:396-435 | running again on the same answers, whatever the disk does and other stagers create, accepts the same record, finds the package in place and changes nothing |
| `Acquire.FilesAreKept` | scripts/release_download.py:528-610 | no run changes a file that was there, a reported package is in the directory with its bytes, nothing else is new, and a download is reported exactly when the file was not there |
| `Acquire.RecordFollows` | scripts/linux_quick_install.py:419-426 | the record a run leaves is the one it found or the newer one of the channel; after a success it is the channel's |
| `Acquire.AcceptedIsKept` | scripts/linux_quick_install.py:419-435 | once a channel is accepted its record stays, whatever fails later |
| `Acquire.Installer.Acquire` | scripts/linux_quick_install.py:396-435 | the statements in order leave exactly the result, record and directory of the specified run, for every failure of the record's write before or after the file is replaced |
| `Acquire.Installer.Stage` | scripts/release_download.py:528-626 | the existing file is kept when it matches and refused otherwise; a new one holds the verified stream, also when other stagers create files before or after the link |
| `PublishPair.UnlinksOnlyItsOwn` | scripts/sign_release_metadata.py:119-156 | in every run of concurrent publishers, crashes included, a rolled-back link still leads to the publisher's own file; names that were there before keep their files, and those files their bytes |
| `PublishPair.AllOrNothing` | scripts/sign_release_metadata.py:119-156 | once all publishers have returned, both files come from the one that succeeded with its bytes, or the directory is what it was; no temporary is left |
| `PublishPair.UndisturbedSucceeds` | scripts/sign_release_metadata.py:119-156 | from every reachable state a publisher that has not failed and whose missing names are free succeeds when it goes on undisturbed |
| `PublishPair.FreeNamesArePublished` | scripts/sign_release_metadata.py:119-156 | from every reachable state in which both names are free, an undisturbed publisher leaves the signature and the descriptor under them with exactly its bytes |
| `PublishPair.FailuresHaveCauses` | scripts/sign_release_metadata.py:119-156 | in every run a publisher that fails had a call that failed or met one of the two names in use |
| `PublishPair.SuccessIsPublished` | scripts/sign_release_metadata.py:142-156 | in every run a publisher that has succeeded has published both files, whoever else is still at work |
| `PublishPair.AllOrNothingIff` | scripts/sign_release_metadata.py:119-156 | in every run, crashes included, once nobody moves any more: the outputs are untouched or both come from one publisher if and only if no publisher holds exactly one link, and only a crashed one can |
| `PublishPair.CrashLeavesHalf` | scripts/sign_release_metadata.py:119-156 | a run that ends, after a crash between the links, with the signature and without the descriptor |
| `QtDeclarations.DeclarationsStandApart` | scripts/reproducible-qt-wrapper.rs:240-247 | a line with a key is neither a header nor a skipped line |
| `QtDeclarations.KeyOfGlued` | scripts/reproducible-qt-wrapper.rs:240-262 | two declarations joined on one line have the key of the second, and asking for it aborts exactly when it does for the second |
| `QtDeclarations.PanicsAlike` | scripts/reproducible-qt-wrapper.rs:196-262 | line sequences that differ only inside runs abort alike |
| `QtDeclarations.NormalizePermutesInsideRuns` | scripts/reproducible-qt-wrapper.rs:196-238 | normalising only permutes lines inside each run |
| `QtDeclarations.OtherLinesStay` | scripts/reproducible-qt-wrapper.rs:196-238 | such a permutation keeps every non-declaration line in place and declarations where declarations were |
| `QtDeclarations.SameSegment` | scripts/reproducible-qt-wrapper.rs:206-224 | run boundaries survive permutation inside runs |
| `QtDeclarations.NormalFormIffSame` | scripts/reproducible-qt-wrapper.rs:196-238 | when keys tell the lines of a run apart, two inputs have the same normal form exactly when they differ inside runs only |
| `QtDeclarations.NormalizeIdempotent` | scripts/reproducible-qt-wrapper.rs:196-238 | normalising lines twice is normalising them once |
| `QtDeclarations.NormalizeLines` | scripts/reproducible-qt-wrapper.rs:201-237 | the in-place scan and sort of the line vector computes the normal form, unless a key it asks for aborts it |
| `QtOrder.KeyIff` | scripts/reproducible-qt-wrapper.rs:240-262 | a line has a key exactly when its text is a type, a separator, `r<register>_<ordinal>` and a semicolon, and the key is those two numbers |
| `QtOrder.RunsAreOrdered` | scripts/reproducible-qt-wrapper.rs:206-234 | behind a header and the lines passed over, the declarations of the normalised lines stand by register and then ordinal, as numbers read off their text |
| `QtOrder.EqualNumbersKeepOrder` | scripts/reproducible-qt-wrapper.rs:227-234 | declarations of one run with the same numbers keep their order |
| `QtOrder.OutputIsOrdered` | scripts/reproducible-qt-wrapper.rs:196-238 | the lines of a normalised source whose last line may stay last are ordered so, and a source without the marker is left alone |
| `QtSource.LinesSurviveIff` | scripts/reproducible-qt-wrapper.rs:196-238 | when the source is normalised without aborting, the lines of the output are the normalised lines exactly when the last line has its newline or no line of its run sorts behind it |
| `QtSource.NormalizeText` | scripts/reproducible-qt-wrapper.rs:196-238 | splitting, normalising the vector in place and concatenating gives the specified output, or aborts exactly on a source with the marker that asks for an aborting key |
| `QtSource.WideSeparatorAborts` | scripts/reproducible-qt-wrapper.rs:240-251 | a source whose declaration has a no-break space before the name aborts the normalisation |
| `QtSource.UnterminatedLastLineIsJoined` | scripts/reproducible-qt-wrapper.rs:237 | a source for which the lines do not survive |
| `QtSource.NondeterminismErased` | scripts/reproducible-qt-wrapper.rs:196-238 | sources that differ only inside runs have the same output or both abort when keys tell lines apart, newline at the end or not |
| `QtSource.NormalizeSourceIdempotent` | scripts/reproducible-qt-wrapper.rs:196-238 | normalising the output of any source that does not abort neither aborts nor changes anything |
| `QtSource.ResplitCalm` | scripts/reproducible-qt-wrapper.rs:196-262 | the output of lines that do not abort, split again with whatever was joined, does not abort either |
| `QtResources.ParseIff` | scripts/reproducible-qt-wrapper.rs:383-447 | the scan finds a document exactly when it is valid and its text is the input |
| `QtResources.NormalizedIff` | scripts/reproducible-qt-wrapper.rs:383-451 | a collection is rewritten exactly when it is the text of a valid document with an entry |
| `QtResources.FirstFailureReported` | scripts/reproducible-qt-wrapper.rs:388-423 | a failure is reported for the first entry that is stuck, behind entries that are all fine, and says what it lacks |
| `QtResources.RewritingKeepsStructure` | scripts/reproducible-qt-wrapper.rs:434-455 | when the staged copies resolve, one per entry, scanning the output finds the same entries in order, with the same tags and surrounding text and the staged names as paths |
| `QtResources.RewritingIdempotent` | scripts/reproducible-qt-wrapper.rs:383-455 | under the same condition rewriting the output changes nothing |
| `QtResources.RewritingKeepsContents` | scripts/reproducible-qt-wrapper.rs:383-455 | entry by entry, under the same tag, the rewritten collection leads to the same bytes in the staging directory as the original did in its place |
| `QtResources.StagedNameIs` | scripts/reproducible-qt-wrapper.rs:425 | a staged name is `resource-` and the index in at least four digits |
| `QtResources.StagedNamesDiffer` | scripts/reproducible-qt-wrapper.rs:425-432 | different entries get different names |
| `QtResources.EntryAcceptedIff` | scripts/reproducible-qt-wrapper.rs:399-423 | an entry is accepted exactly when its tag has an alias and its trimmed text escapes a path that can be copied; the first failure is reported |
| `QtResources.AliasIff` | scripts/reproducible-qt-wrapper.rs:332-344 | the alias is the text between the quotes behind the first `alias=` |
| `QtResources.ReplaceAll` | scripts/reproducible-qt-wrapper.rs:453-455 | replacing the collected spans from right to left equals the left-to-right concatenation of gaps and replacements |
| `QtResources.NormalizeResources` | scripts/reproducible-qt-wrapper.rs:383-455 | the scan by positions with its copies, followed by the splices, computes that output with the first error in order, and on success the staging directory holds one copy per entry |
| `XmlText.DecodesIffEscapes` | scripts/reproducible-qt-wrapper.rs:484-510 | decoding yields a text exactly when the input escapes that text with the five entities of section 4.6 of XML 1.0 |
| `XmlText.PredefinedEntities` | scripts/reproducible-qt-wrapper.rs:495-500 | the five entities decode to their characters |
| `XmlText.DecodeXmlText` | scripts/reproducible-qt-wrapper.rs:484-510 | the loop from ampersand to ampersand computes that decoding and its errors |
| `Cookies.CookieIff` | crates/api/src/cookies.rs:77-99 | a value is read exactly when all headers are readable, every crumb has an equals sign and one crumb has the name; it is that crumb's value |
| `Cookies.CrumbReads` | crates/api/src/cookies.rs:83-94 | blanks around name, equals sign and value do not count, and a later equals sign belongs to the value |
| `Cookies.CookieForgetsLayout` | crates/api/src/cookies.rs:77-99 | only the multiset of crumbs counts, not their order or the header lines |
| `Cookies.LineSplitIrrelevant` | crates/api/src/cookies.rs:80-82 | splitting a header as in section 8.1.2.5 of RFC 7540 never changes the answer |
| `Cookies.ReadCookie` | crates/api/src/cookies.rs:77-99 | the nested loops with their early returns compute that answer |
| `Cookies.WrittenCookieReadsBack` | crates/api/src/cookies.rs:118-139 | a written cookie splits into its pair, the path and exactly the attributes of the policy, so it is host-only; the pair reads back |
| `Cookies.ClearedCookieReadsBack` | crates/api/src/cookies.rs:141-156 | a cleared cookie has an empty value, no lifetime and otherwise the same attributes |
| `Cookies.WrittenCookieShowsPolicy` | crates/api/src/cookies.rs:118-139 | behind pair and path a written cookie has `HttpOnly`, `Secure`, `SameSite=Strict` and `SameSite=Lax` exactly when asked for, each once, and nothing else |
| `Cookies.ClearedCookieShowsPolicy` | crates/api/src/cookies.rs:141-156 | a cleared cookie is the empty pair, `Max-Age=0`, the expiry in 1970, the path, and the same attributes |
| `Cookies.ResponseHeaders.AppendSessionCookie` | crates/api/src/cookies.rs:101-107 | the session cookie is `HttpOnly` |
| `Cookies.ResponseHeaders.AppendCsrfCookie` | crates/api/src/cookies.rs:109-111 | the CSRF cookie is not |
| `Cookies.ResponseHeaders.AppendCookie` | crates/api/src/cookies.rs:118-139 | pushing the attributes appends exactly that text and keeps earlier headers |
| `Cookies.ResponseHeaders.AppendClearCookies` | crates/api/src/cookies.rs:113-116 | both cookies are cleared, in order, the session with `HttpOnly` and the CSRF cookie without |
| `Csrf.DecodeIff` | crates/api/src/csrf.rs:148-178 | decoding gives bytes exactly when the lower-case form of the text is their encoding and they have the length of a proof |
| `Csrf.EncodeHex` | crates/api/src/csrf.rs:148-155 | the loop computes the encoding |
| `Csrf.EncodedByte` | crates/api/src/csrf.rs:148-155 | each byte is written as its two digits of base sixteen, the high one first |
| `Csrf.DecodeHex` | crates/api/src/csrf.rs:157-169 | the loop over pairs computes the decoding |
| `Csrf.Issue` | crates/api/src/csrf.rs:39-47 | the filled buffer is nonce then tag, in hexadecimal |
| `Csrf.VerifiesIffIssued` | crates/api/src/csrf.rs:50-59 | a candidate verifies exactly when its lower-case form is a proof issued for the session under some nonce |
| `Csrf.MessageInjective` | crates/api/src/csrf.rs:61-70 | the authenticated message determines session and nonce |
| `Csrf.MessageLayout` | crates/api/src/csrf.rs:39-70 | the message is the label, a zero byte, the session and the nonce in this order; a proof is the nonce and then its tag |
| `Csrf.SessionBound` | crates/api/src/csrf.rs:50-70 | one candidate accepted for two sessions is a collision of the authentication code |
| `Csrf.EchoedProofPasses` | crates/api/src/csrf.rs:93-106 | an issued proof in the one CSRF cookie among other well-formed cookies, copied to the header, passes |
| `Csrf.PassedPairWasIssued` | crates/api/src/csrf.rs:93-106 | whatever passes is, up to case, a proof for this session |
| `Csrf.PairPassesIff` | crates/api/src/csrf.rs:93-106 | the pair passes exactly when all cookie headers are well formed, one crumb is named `synveil_csrf`, its value is the header's, and that is up to case a proof for this session |
| `Csrf.ValidatePair` | crates/api/src/csrf.rs:93-106 | the check of cookie and header computes that |

## Left out

- `BGAppRefreshScheduler` as an object: its operations are the steps of the state machine, on values; update in place of its fields and the sharing of delivery objects by reference are captured only for the delivery (`DeliveryObject`).
- Scheduler state labels, logging, manual recovery: presentation only, not part of the model.
- The trailing `schedule()` calls of the scheduler: covered by letting `schedule()` be called at any moment, which allows more runs than the app has.
- Revision wrap-around: the 64-bit revision counter is a natural number, and grants are fresh numbers.
- Power loss: the persisted state is modelled under process crashes; an accepted record that was already stored returns without a sync.
- File ownership, modes, symbolic links, ancestry and inode-identity checks: the directories are private, and an identity check is an outcome the environment may turn into a failure.
- A failing unlink while the signing tool rolls back: unlinking is assumed to succeed there; a crash is not excluded.
- Fetching signature files: the verifier over the fetched signatures is one arbitrary function.
- Platform and architecture aliases in `select_artifact`: the identity is given in canonical form.
- Duplicate keys, number formats and encodings of JSON text: decoding is an arbitrary function to a document.
- Setting the times of copied resources in the Qt wrapper: what a path leads to is one arbitrary function.
- UTF-8 offsets in the Qt wrapper: positions count characters.
- Request provenance, key generation, header-value syntax: single-branch checks or library code.
- `compile_sources`, `lifecycle`, `authorize_purge`, `obsolete_owned`: they would only add easy members beside the version parsers.
- The remaining scripts, crates and clients: adapters, user interface, host probing and SQL that this model does not touch.
