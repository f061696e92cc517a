# iPhoneLoadly: a verified model of its installs, sessions, tables and upgrade

iPhoneLoadly is a server that signs iOS and tvOS apps and installs them on a trusted phone or Apple TV
over Wi-Fi. This project models the parts of it whose correctness does not show in any single function,
and proves what they promise over whole runs and in every interleaving.

| file | what it models |
|---|---|
| `Wrappers.dfy` | `Option` and `Result` |
| `RemotePaths.dfy` | joined remote paths, their byte order, and containment between them |
| `SignedTree.dfy` | the signed tree, the upload planner and the private-tree validator |
| `Phone.dfy` | the phone as the server sees it: its staging files, its requests, and what a run can be observed to do |
| `Afc.dfy` | the request/response client with its per-request timeout |
| `Staging.dfy` | the staging root, the upload of a plan and the removal of the root |
| `InstallRun.dfy` | one whole install: two sessions, signing, upload, one command, verification, two cleanups, one deadline |
| `TwoFactor.dfy` | the two-factor rendezvous of a login |
| `WirelessSession.dfy` | the wireless pairing session and its one persistence point |
| `AppleTv.dfy` | the Apple TV PIN session |
| `AppStore.dfy` | the app, job and source tables, the files beside them, and the sections that change them |
| `AppRuns.dfy` | these tables under concurrent requests, install tasks, late progress reports and restarts |
| `AppExamples.dfy` | runs that reach the states which the theorems about apps and jobs except |
| `LatestSuccess.dfy` | the queries about managed installations |
| `AssetMatch.dfy` | wildcard patterns for release assets |
| `IpaArchive.dfy` | the inspection of an uploaded archive |
| `UpdateChoice.dfy` | the choice of an update release |
| `Rollback.dfy` | the upgrade of the runtime files and its rollback |

How the outside world enters:

- The phone answers every request with success, with "not found", with a refusal, not at all, or after
  the connection broke; it may do part of a request it then refuses. It answers in request order, tells the
  truth when it reports success or "not found", and nobody else writes below the staging root of a run.
  A request takes effect when it is sent or never: what a dropped connection still had pending is discarded.
- A world may be steady: then no timed step that is in time fails, no connection breaks, the phone serves every
  request that it can serve, and nobody touches the local files. What an install must succeed in is said for steady worlds;
  all other clauses hold in every world. What the phone replies to the install command, and what a lookup finds, is open in both.
- Time is a natural number of seconds, in the wireless session of milliseconds. A timed step ends by its
  limit or fails at it; one whose limit has passed fails at once. Local work between such steps takes no time.
- SHA-256 is a function parameter, so nothing depends on which function it is. Identifiers drawn for tasks,
  jobs and apps are fresh.
- Concurrent code is a state machine: each section under a lock is one step, and the theorems hold for every
  sequence of steps. The class of each object has one method per section, tied by its contract to the
  function that the state machine runs.
- A request that holds the app lock, a submitted code and the start of a wireless session may be dropped where
  they wait, as when the client is gone; every other request that has begun comes to its end.
- Reading a local file, connecting, pairing and signing succeed or fail as they like; which calls of an upgrade
  succeed is a parameter of it.

What the code does against what one would expect, each with a lemma or contract below:

- `wildcard_match` accepts more than a glob does when the parts before the last star run into the suffix.
- A source download that created its app removes the file it just stored; so does a replacement whose new
  path equals the old one, as when a linked app is deleted and downloaded again.
- A source download that creates its app and fails after writing the app's row leaves that app without a file.
- `remaining_days` is one day short of the days left, rounded up, during the last hour before a day is over.
- When signing times out, the aborted signing step may still report progress once the job has failed, and
  `update_job_status` does not look at the phase. Such a late report makes the job active again. That an
  active job keeps its app and its path holds exactly in the runs where no late report revives a job whose app
  was deleted or replaced meanwhile; if ended jobs got no late reports, it would hold in all.
- A manual install, or a late report, may put a second active job beside another of the same app and device.
- A job stays active for ever after a restart, after a final status that could not be written, or after a late
  report, and keeps its app from being deleted; from any state an app can still come to be deleted exactly if
  it has no such job.
- A deletion whose second statement fails, or whose file stays and whose row cannot be restored, leaves a deleted
  app with its file.
- A deletion or download whose client goes away gives up the lock while its file is being removed. Between then and
  the removal a job may be queued for that file and lose it; otherwise only a late report exposes a job to this.
- A submitted code whose client goes away after the challenge was closed is lost: no further code is accepted, and
  the login can be answered again exactly if this did not happen.
- `set_phase` and `finish` of the wireless session do not look at the phase, so its guarantees rest on an
  aborted task taking no further step. The code does not enforce this: an abort lets the poll under way come
  to its end. The theorems therefore hold for every run without a late write, which is shown to be exactly what
  an ended session is safe against. The Apple TV session does not need that.
- The commitment deadline of a wireless pairing counts whole seconds from the start of the commitment, so it may
  lie up to a second after the expiry of the session.
- A `systemctl is-enabled` that fails reads as "disabled": a rollback then leaves that unit disabled.
- A status that cannot be written after the installer ends the upgrade with an error and no rollback, with the
  new files in place.

## Model

| member | source | states |
|---|---|---|
| RemotePaths.BeforeIsFirstDifference | crates/iphoneloadly-api/src/wireless_pairing.rs:2144 | a path stands before another exactly if it is a prefix of it or has the smaller character where they first differ |
| RemotePaths.BeforeTotal | crates/iphoneloadly-api/src/wireless_pairing.rs:2144 | any two paths compare in the order the plan is sorted by |
| RemotePaths.BeforeTransitive | crates/iphoneloadly-api/src/wireless_pairing.rs:2144 | that order is transitive |
| RemotePaths.BeforeAntisymmetric | crates/iphoneloadly-api/src/wireless_pairing.rs:2144 | that order puts no two different paths in the same place |
| RemotePaths.PrefixBefore | crates/iphoneloadly-api/src/wireless_pairing.rs:2144 | a path sorts before every path it is a prefix of |
| RemotePaths.JoinInjective | crates/iphoneloadly-api/src/wireless_pairing.rs:1938-1962 | different component lists of safe names never join to the same remote path |
| SignedTree.SafeRemotePath | crates/iphoneloadly-api/src/wireless_pairing.rs:1938-1962 | a path is accepted exactly when it is non-empty and every component is Unicode, not empty, `.` or `..`, and without slash, backslash and null; the result is the join; `NonUnicodePath` is returned exactly when the first bad component is not Unicode |
| SignedTree.ValidatePrivateSignedTree | crates/iphoneloadly-api/src/signing.rs:984-1024 | the queue loop ends and accepts exactly the roots that are, after any chain of links, directories whose descendants are all directories and files, at most 20000 of them and at most 2 GiB |
| SignedTree.ValidateDirectory | crates/iphoneloadly-api/src/signing.rs:991-1021 | the inner loop counts every entry of one directory and queues its sub-directories; it refuses only trees beyond the limits or with a link or special file |
| SignedTree.PlanSignedBundle | crates/iphoneloadly-api/src/wireless_pairing.rs:2071-2150 | the queue loop ends; a plan lists every descendant exactly once, sorted, with its size and digest and the exact byte sum, and exists only for bounded trees with safe names; undisturbed, every such tree gets one; each limit, name and type error names such a fault that the tree has |
| SignedTree.PlanDirectory | crates/iphoneloadly-api/src/wireless_pairing.rs:2099-2141 | the inner loop accounts for every entry of one directory and queues its sub-directories; undisturbed, it refuses only trees that cannot be planned |
| SignedTree.WalkersAgree | crates/iphoneloadly-api/src/wireless_pairing.rs:2014-2150 | on one undisturbed tree the planner accepts exactly what the validator accepts, less links as root and unsafe names |
| SignedTree.SortEntries | crates/iphoneloadly-api/src/wireless_pairing.rs:2144 | sorting keeps every entry and puts them in path order |
| SignedTree.PlanDistinct | crates/iphoneloadly-api/src/wireless_pairing.rs:2071-2150 | no two entries of a plan share a remote path |
| SignedTree.PlanParentsFirst | crates/iphoneloadly-api/src/wireless_pairing.rs:2144 | in a sorted plan every directory stands before everything inside it |
| SignedTree.PlanSizes | crates/iphoneloadly-api/src/wireless_pairing.rs:2071-2150 | the planned byte count is the sum of the planned file sizes |
| Phone.ServeStaysInside | crates/iphoneloadly-api/src/wireless_pairing.rs:2261-2330 | whatever the phone makes of a request within a root, it changes nothing outside that root and keeps every file below its directory |
| Afc.TaskAfcClient.constructor | crates/iphoneloadly-api/src/wireless_pairing.rs:2504-2520 | each client gets a connection of its own, with nothing outstanding |
| Afc.TaskAfcClient.Request | crates/iphoneloadly-api/src/wireless_pairing.rs:2188-2259 | an accepted response is the reply to this very request; a timeout is permanent and nothing is sent after it; the call ends by its limit; the files change only as the reply says; in a steady world whatever can be served is |
| Afc.TaskAfcClient.Receive | crates/iphoneloadly-api/src/wireless_pairing.rs:2228-2250 | the read half takes the one outstanding reply, or ends as broken, timed out or cancelled and says when |
| Afc.TaskAfcClient.Send | crates/iphoneloadly-api/src/wireless_pairing.rs:2228-2231 | the request is sent once and queues one reply behind the others, or nothing is sent and the connection is broken |
| Afc.ServeReplies | crates/iphoneloadly-api/src/wireless_pairing.rs:2261-2330 | a success or "not found" reply tells what the files now are |
| Staging.ProgressNeverFalls | crates/iphoneloadly-api/src/wireless_pairing.rs:2772-2777 | the percentage lies in 40..85, does not fall as bytes are sent, is 85 once all are, and else 40 and the sent share of 45, rounded down |
| Staging.ReportProgress | crates/iphoneloadly-api/src/wireless_pairing.rs:2876-2883 | reported percentages never fall |
| Staging.Command | crates/iphoneloadly-api/src/wireless_pairing.rs:2292-2331 | one request extends the log by itself alone, stays below the root, and on success has its effect; in a steady world every request that can be served succeeds |
| Staging.Query | crates/iphoneloadly-api/src/wireless_pairing.rs:2270-2290 | an existence query writes nothing; `Absent` means the path was absent and seen absent, `Present` that it is there and whether it is a directory; in a steady world it answers |
| Staging.WriteChunks | crates/iphoneloadly-api/src/wireless_pairing.rs:2857-2906 | success means the remote file has the planned size and digest, whatever the local source did meanwhile; bytes sent never exceed the planned size; in a steady world an unchanged source is written |
| Staging.NextChunk | crates/iphoneloadly-api/src/wireless_pairing.rs:2857-2890 | one turn reads, checks and writes one chunk: it goes on with exactly the bytes read appended to the remote file, ends at the end of the source, or fails with the kind of that place |
| Staging.UploadFile | crates/iphoneloadly-api/src/wireless_pairing.rs:2842-2910 | one file is created at most once, and on success holds the planned bytes while nothing else changed; in a steady world an unchanged file is uploaded; the error names the place |
| Staging.UploadOne | crates/iphoneloadly-api/src/wireless_pairing.rs:2823-2911 | one planned entry is created at most once, in a directory that is there and under a name that is free; success means exactly that entry was added, and an unchanged entry succeeds in a steady world |
| Staging.UploadEntries | crates/iphoneloadly-api/src/wireless_pairing.rs:2823-2927 | entries are created in plan order, each once, directories before what they hold; the bytes sent equal the planned total on success and never exceed it; in a steady world an unchanged source is uploaded |
| Staging.Precheck | crates/iphoneloadly-api/src/wireless_pairing.rs:2799-2812 | nothing is written; it passes only for a `PublicStaging` that is a directory and a root that is free and was seen absent; each of the two refusals has its reason, and in a steady world the answer is fixed by the files |
| Staging.CreateRoot | crates/iphoneloadly-api/src/wireless_pairing.rs:2813-2821 | the staging root and the app directory are created in this order and nothing else is touched; each of the two errors belongs to its directory, and in a steady world both are created |
| Staging.StageSignedBundle | crates/iphoneloadly-api/src/wireless_pairing.rs:2779-2935 | after success the tree below `Signed.app` is exactly the planned tree; after any ending nothing outside the root changed, the root was created only in a `PublicStaging` directory, free and first seen absent, and every created path came after the directory it lies in; in a steady world an unchanged source is staged exactly if the directory is there and the root is free, and else the error says which is wrong |
| Staging.PlanIsUnchanged | crates/iphoneloadly-api/src/wireless_pairing.rs:2071-2150 | the tree that was planned holds for every entry the content that the upload will check |
| Staging.NextCreateIsPossible | crates/iphoneloadly-api/src/wireless_pairing.rs:2823-2841 | when an entry's turn comes, its parent directory is in place and nothing is in its way |
| Staging.ExpectedInOrder | crates/iphoneloadly-api/src/wireless_pairing.rs:2813-2841 | root, app directory and plan entries are in an order in which each path is new and its directory was created before it |
| Staging.MirrorsExtend | crates/iphoneloadly-api/src/wireless_pairing.rs:2823-2911 | creating the next entry turns an exact copy of the first entries into one of the longer list |
| Staging.Restored | crates/iphoneloadly-api/src/wireless_pairing.rs:2937-2958 | removing a root that was absent before brings the earlier files back exactly |
| Staging.CleanExactTaskStaging | crates/iphoneloadly-api/src/wireless_pairing.rs:2937-2958 | `NotNeeded` exactly when no root was created; at most one removal, of the exact root, on a new connection, within ten seconds; `Succeeded` means the root is gone; in a steady world it never fails |
| InstallRun.MergeSessionCleanup | crates/iphoneloadly-api/src/wireless_pairing.rs:2717-2725 | a failed cleanup of either session is never lost |
| InstallRun.MirrorsIsCopy | crates/iphoneloadly-api/src/wireless_pairing.rs:2779-2935 | a mirrored plan is an exact copy of the signed tree the plan was made from |
| InstallRun.SendOneInstallCommand | crates/iphoneloadly-api/src/wireless_pairing.rs:2620-2639 | one command is sent with the files as they are and its reply recorded; accepted is exactly a reply that it is done, definitely refused exactly an operation that failed, and such a reply came by the deadline; only the staged app may be consumed |
| InstallRun.InstalledBundleLookup | crates/iphoneloadly-api/src/wireless_pairing.rs:2605-2618 | a lookup answers by its deadline or not at all, and what it answered is what was observed |
| InstallRun.RefuseExisting | crates/iphoneloadly-api/src/wireless_pairing.rs:3000-3032 | under `Refuse` the run goes on only after a lookup answered that the app is absent, and ends as already installed exactly after one that found it; under `Upgrade` nothing is asked |
| InstallRun.InstallAndVerify | crates/iphoneloadly-api/src/wireless_pairing.rs:3106-3189 | one command is sent unless a full 20-second verification window would no longer end before the cleanup reserve, which is the only time-out; what was sent is installed exactly if a lookup in the window found the app, not installed exactly if none did and the command was refused, or done and a lookup found the app absent, and otherwise unknown, with the error kind of each case |
| InstallRun.VerifyInWindow | crates/iphoneloadly-api/src/wireless_pairing.rs:3146-3170 | a lookup whose answer, if any, came within the 20 seconds after the command ended |
| InstallRun.InstallHappened | crates/iphoneloadly-api/src/wireless_pairing.rs:2641-2744 | outcome and error kind fit what the phone replied and what the lookup found, written out over the observed events |
| InstallRun.UploadAndInstall | crates/iphoneloadly-api/src/wireless_pairing.rs:3096-3210 | the command is sent only for an exact copy of the signed tree, after an upload in which nothing failed, and the report's count equals the commands sent; a steady run that is in time sends it exactly if the upload can be made |
| InstallRun.CleanUpRun | crates/iphoneloadly-api/src/wireless_pairing.rs:3212-3217 | after cleanup the report tells the truth about the staging files, and a cleanup failure shows in the error kind; what was determined stays so |
| InstallRun.ExecuteRsdFirstInstall | crates/iphoneloadly-api/src/wireless_pairing.rs:2989-3217 | one run over an open session: all writes below its own root and after it was seen absent, one command at most, ends ten seconds after the work deadline at the latest; a steady run that is in time is determined by the tree, the files, whether the app was found, and the reply |
| InstallRun.InstallRemotePairingApp | crates/iphoneloadly-api/src/wireless_pairing.rs:1319-1554 | the whole run ends within 900 or 3600 seconds with both cleanups; nothing outside the run's root changes; every created path comes after its directory; `NotNeeded` means nothing was written and `Succeeded` that the files are the earlier ones; outcome and error kind fit reply and lookups as above; the error kind is empty exactly for `Installed` with no failed cleanup; a steady run that ends more than 40 seconds early has clean cleanups and is determined by the tree, the files, whether the app was found or the device is registered, and the reply |
| InstallRun.JobSucceedsOnlyWhenVerified | crates/iphoneloadly-api/src/main.rs:2588-2612 | a job succeeds exactly for an `Installed` report and records the signed bundle id; then one command was sent for an exact copy and a lookup of that bundle, timed within the verification window after it, found the app; a missing registration, a wrong phone and an unverified command each become their own job error |
| TwoFactor.LoginAttempt.Claim | crates/iphoneloadly-api/src/signing.rs:563-575 | only a submit that finds the challenge open is accepted, and it closes it at once |
| TwoFactor.LoginAttempt.Submit | crates/iphoneloadly-api/src/signing.rs:563-579 | an accepted response is stored, closes the challenge and leaves nobody asleep; a refused one changes nothing |
| TwoFactor.LoginAttempt.WaitForTwoFactor | crates/iphoneloadly-api/src/signing.rs:539-579 | the wait returns the first response that arrives, early or late and with or without a left-over permit, all others are refused, and it sleeps exactly if none arrives |
| TwoFactor.LoginAttempt.RecordPostTwoFactorEvent | crates/iphoneloadly-api/src/signing.rs:519-529 | the history is always the last events of all recorded ones, in order |
| TwoFactor.InvAlways | crates/iphoneloadly-api/src/signing.rs:539-579 | in every interleaving the current challenge is open, claimed, answered or lost, never two of these at once, and no wake-up is lost |
| TwoFactor.Rendezvous | crates/iphoneloadly-api/src/signing.rs:539-579 | each challenge accepts at most one response, its waiter returns exactly that one, and a stored response is never left with a sleeper nobody will wake |
| TwoFactor.AnswerIsDelivered | crates/iphoneloadly-api/src/signing.rs:539-579 | from every reachable state with a stored response and a waiter, at most three pending steps return that response |
| TwoFactor.DroppedSubmitStrandsTheLogin | crates/iphoneloadly-api/src/signing.rs:563-579 | in every reachable state some continuation answers a waiting login if and only if the submit accepted for its challenge was not dropped half way |
| TwoFactor.DroppedSubmitIsReached | crates/iphoneloadly-api/src/signing.rs:576 | a run with such a drop |
| WirelessSession.WirelessPairingService.CheckStart | crates/iphoneloadly-api/src/wireless_pairing.rs:823-840 | a start is busy exactly for a live session that is in time; a due one is expired, and nothing else changes |
| WirelessSession.WirelessPairingService.StartWireless | crates/iphoneloadly-api/src/wireless_pairing.rs:818-875 | an uninterrupted start takes the slot exactly from no session or an ended or due one, with a session that is not due and shows no code; otherwise only a due session is expired |
| WirelessSession.WirelessPairingService.Status | crates/iphoneloadly-api/src/wireless_pairing.rs:877-893 | only the matching id is answered: a live session whose time is over as expired and without code, its task told to stop, any other one unchanged |
| WirelessSession.WirelessPairingService.Cancel | crates/iphoneloadly-api/src/wireless_pairing.rs:895-910 | exactly a live session of that id is cancelled; an ended one is reported as terminal |
| WirelessSession.WirelessPairingService.RecordTransportResult | crates/iphoneloadly-api/src/wireless_pairing.rs:913-945 | only a session that verifies its transport is ended by a result, as ready or failed by what the result says; every other is refused unchanged |
| WirelessSession.ReadyOnlyAfterSaving | crates/iphoneloadly-api/src/wireless_pairing.rs:913-945 | in every run without late writes a session becomes `Ready` only by a good transport result while it verifies its transport, and then its own pairing is the saved one |
| WirelessSession.WirelessPairingService.FinalizeNewPairing | crates/iphoneloadly-api/src/wireless_pairing.rs:1672-1759 | the pairing is saved only for the live matching session, committed and before the commitment deadline |
| WirelessSession.WirelessPairingService.RunPairing | crates/iphoneloadly-api/src/wireless_pairing.rs:1561-1670 | how an uninterrupted pairing ends and when it is saved, for every course of connection, codes, handshake and commitment; a task whose session is gone or over changes nothing |
| WirelessSession.SavedAtOnePoint | crates/iphoneloadly-api/src/wireless_pairing.rs:1672-1759 | in every state, reachable or not, the saved pairing changes only in the step that moves the live matching session to `VerifyingTransport` after a commitment before its deadline |
| WirelessSession.SavedInTime | crates/iphoneloadly-api/src/wireless_pairing.rs:1640-1700 | in every run without late writes a pairing is saved less than a second after the expiry of its session at the latest |
| WirelessSession.SavedOncePerSession | crates/iphoneloadly-api/src/wireless_pairing.rs:1561-1759 | in every run without late writes the saved pairing is what the last successful commitment wrote, and a session saves at most once and never after it ended |
| WirelessSession.CodeOnlyWhileAwaited | crates/iphoneloadly-api/src/wireless_pairing.rs:1796-1832 | in every run without late writes a setup code is visible only in `AwaitingCodeEntry` |
| WirelessSession.CodeIsShown | crates/iphoneloadly-api/src/wireless_pairing.rs:1806-1814 | in every such run a code that the task of the live session is given during the handshake is shown |
| WirelessSession.EndedSessionIsFinal | crates/iphoneloadly-api/src/wireless_pairing.rs:818-910 | in every run without late writes a session that ended in any way is never changed again, and saves nothing afterwards |
| WirelessSession.EndedSessionChangesOnlyLate | crates/iphoneloadly-api/src/wireless_pairing.rs:1796-1832 | a step changes an ended session if and only if it is a late write |
| WirelessSession.StrictRunsHaveNoLateWrites | crates/iphoneloadly-api/src/wireless_pairing.rs:823-910 | if aborted tasks took no further step, no run had a late write |
| WirelessSession.LiveSessionIsNotReplaced | crates/iphoneloadly-api/src/wireless_pairing.rs:818-875 | in every run without late writes no step replaces a live session |
| WirelessSession.AbortedTaskMustStop | crates/iphoneloadly-api/src/wireless_pairing.rs:1816-1851 | a task that kept stepping after its abort would revive its cancelled session and save its pairing |
| WirelessSession.CancelledWhileAcceptingIsReached | crates/iphoneloadly-api/src/wireless_pairing.rs:895-910 | the state in which that would happen is reachable |
| AppleTv.AppleTv.Start | crates/iphoneloadly-api/src/apple_tv.rs:114-161 | unknown targets and live sessions in time are refused without a change; otherwise the slot holds a new connecting session |
| AppleTv.AppleTv.Status | crates/iphoneloadly-api/src/apple_tv.rs:163-171 | only the matching id is answered: a live session whose time is over as expired and without its sender, any other one unchanged |
| AppleTv.AppleTv.SubmitPin | crates/iphoneloadly-api/src/apple_tv.rs:173-189 | a PIN is delivered exactly when the live session awaits one, is in time, still holds its sender and the task still listens; each refusal has its own condition, and a session whose time is over is expired by it |
| AppleTv.AppleTv.Cancel | crates/iphoneloadly-api/src/apple_tv.rs:191-204 | exactly a live session of that id is cancelled and loses its sender |
| AppleTv.AppleTv.Expire | crates/iphoneloadly-api/src/apple_tv.rs:207-215 | exactly a live session whose time is over expires |
| AppleTv.AppleTv.SetTaskPhase | crates/iphoneloadly-api/src/apple_tv.rs:270-291 | a task moves only the live session of its own id, to exactly the phase and failure it reports, and not back to waiting for a PIN that was taken |
| AppleTv.AppleTv.FinishPairing | crates/iphoneloadly-api/src/apple_tv.rs:256-268 | exactly the live session of that id becomes ready, verified and renamed exactly if it was identified |
| AppleTv.StaleTaskIsHarmless | crates/iphoneloadly-api/src/apple_tv.rs:217-291 | a task whose session was replaced changes no session |
| AppleTv.PhasesMoveForward | crates/iphoneloadly-api/src/apple_tv.rs:114-291 | in every run no step moves a session's phase back, and an ended session is untouched even by its own task |
| AppleTv.LiveSessionIsNotReplaced | crates/iphoneloadly-api/src/apple_tv.rs:131-138 | a session that is live and in time keeps the slot, so at most one session is live |
| AppleTv.EndedSessionIsFinal | crates/iphoneloadly-api/src/apple_tv.rs:217-291 | in every run, with tasks that ignore their abort, an ended session never changes and gets no further PIN |
| AppleTv.OnePinPerSession | crates/iphoneloadly-api/src/apple_tv.rs:173-243 | at most one PIN is sent per session, and the pairing uses that one or none |
| AppleTv.SentPinArrives | crates/iphoneloadly-api/src/apple_tv.rs:173-243 | a waiting task receives the PIN that was sent to its session |
| AppleTv.FailureCodeExactlyInFailed | crates/iphoneloadly-api/src/apple_tv.rs:114-291 | a failure code is present exactly in `Failed`, and only a ready session is verified |
| AppStore.AppDatabase.MarkAppDeleted | crates/iphoneloadly-api/src/store.rs:609-631 | exactly an app that is there, not deleted and without a job that has not ended is marked, and its path returned; each refusal has its own condition; if the second statement fails the call fails too, and the mark stays |
| AppStore.AppDatabase.DeleteIpa | crates/iphoneloadly-api/src/main.rs:2808-2858 | an app is deleted together with its file; if the file stays, nothing is changed, unless the second statement or restoring the row fails, and then the app is deleted and its file stays |
| AppExamples.HalfDeletionLeavesItsFile | crates/iphoneloadly-api/src/store.rs:619-629 | a run in which a deletion fails half way and leaves the app deleted and its file in place |
| AppStore.AppDatabase.CreateJob | crates/iphoneloadly-api/src/main.rs:2355-2376 | an install gets the path of exactly a live app, and one queued job is added; from then on a deletion is refused; without a live app nothing changes |
| AppStore.AppDatabase.RunInstallJob | crates/iphoneloadly-api/src/main.rs:2474-2587 | uninterrupted and whatever the progress, the job ends, as a success exactly if its file was there and the install succeeded, and no other job changes |
| AppStore.AppDatabase.FinishDownload | crates/iphoneloadly-api/src/sources.rs:494-612 | the locked section and the clean-up leave exactly the tables and files of the specified commit |
| AppStore.DownloadKeepsTheApplication | crates/iphoneloadly-api/src/sources.rs:494-597 | no download turns an app into another application; one that changes or confirms anything had the source as it was read and, if linked, an idle app of the same bundle |
| AppStore.DownloadReplaces | crates/iphoneloadly-api/src/sources.rs:494-597 | conversely such a download whose steps succeed and which clashes with no other app changes nothing exactly if the same file is stored, and else leaves exactly the tables with its digest, bundle and path |
| AppStore.AppDatabase.QueueRefresh | crates/iphoneloadly-api/src/main.rs:2443-2471 | the loop adds one job for each present due pair without an active one and none for any other, changes no existing job, and counts what it added |
| AppStore.DownloadKeepsItsFile | crates/iphoneloadly-api/src/sources.rs:494-597 | after a successful download the app's file exists if and only if the source was linked and the new path differs from the old one |
| AppStore.RefusedDownloadKeepsTheApp | crates/iphoneloadly-api/src/sources.rs:605-612 | a refused download leaves the app's row alone, and its file unless the refused file had taken its place |
| AppStore.RefusedDownloadMayLeaveAnEmptyApp | crates/iphoneloadly-api/src/sources.rs:555-612 | a refused download of an unlinked source leaves an app without a file if and only if the app's row was written and one of the two later statements failed |
| AppRuns.InvKept | crates/iphoneloadly-api/src/main.rs:2337-2858 | every step of create, refresh, delete, download, upload, progress, late report, dropped request and restart keeps the tables and the lock holders in order |
| AppRuns.ActiveJobKeepsItsApp | crates/iphoneloadly-api/src/main.rs:2337-2622 | in a run, restarts included, an app with an active job is never deleted and keeps the path the job was given, if and only if no late report revives a job whose app was deleted or replaced since |
| AppRuns.StrictRunsAreSound | crates/iphoneloadly-api/src/store.rs:559-580 | if an ended job took no status write, this would hold in every run |
| AppExamples.LateReportLosesItsApp | crates/iphoneloadly-api/src/wireless_pairing.rs:1440-1450 | create, time-out, deletion and late report reach an active job without app and file |
| AppRuns.ActiveJobKeepsItsFile | crates/iphoneloadly-api/src/main.rs:2808-2858 | while a job stays active no step adds or removes the file it installs, in every run where no job becomes active while a removal of its file has begun |
| AppRuns.ThreatenedJobMayLoseItsFile | crates/iphoneloadly-api/src/main.rs:2808-2858 | after a step that makes such a job active one more step takes its file |
| AppRuns.StrictRunsLoseNoFile | crates/iphoneloadly-api/src/main.rs:2808-2858 | there is no such step in a run where ended jobs take no status write and no request is dropped while it removes a file |
| AppExamples.GivenUpRemovalLosesAFile | crates/iphoneloadly-api/src/sources.rs:584-591 | such a step is reached by a job that is queued after a dropped request |
| AppExamples.LateReportLosesItsFile | crates/iphoneloadly-api/src/signing.rs:1512-1517 | such a step is also reached by a late report |
| AppRuns.SecondActiveJob | crates/iphoneloadly-api/src/main.rs:2337-2472 | in every run a step gives a pair a second active job if and only if it is a manual install, or a late report that revives an ended job, while the pair has one |
| AppExamples.ManualInstallDoubles | crates/iphoneloadly-api/src/main.rs:2337-2376 | a manual install beside an active job reaches two active jobs of one pair |
| AppExamples.LateReportDoubles | crates/iphoneloadly-api/src/main.rs:2507-2514 | so does a late report after a second install |
| AppRuns.InterruptedJobBlocksItsApp | crates/iphoneloadly-api/src/store.rs:609-620 | from every reachable state some continuation deletes a live app if and only if none of its jobs is interrupted |
| AppRuns.WhatInterrupts | crates/iphoneloadly-api/src/main.rs:2614-2622 | a job comes to be interrupted exactly by a restart, by a final status that is not written, or by a late report |
| AppExamples.RestartInterrupts | crates/iphoneloadly-api/src/store.rs:609-620 | a run that ends in a restart reaches an interrupted job of a live app |
| AppExamples.LostStatusInterrupts | crates/iphoneloadly-api/src/main.rs:2614-2622 | so does a run with a final status that is not written |
| AppExamples.LateReportInterrupts | crates/iphoneloadly-api/src/store.rs:559-580 | so does a run with a late report |
| AppExamples.NewDownloadLosesItsFile | crates/iphoneloadly-api/src/sources.rs:555-597 | a run in which a successful download of a new app removes the file it stored |
| AppExamples.RepeatedDownloadLosesItsFile | crates/iphoneloadly-api/src/sources.rs:514-597 | a run in which a linked app is downloaded, deleted and downloaded again, and its file is gone |
| AppExamples.RefusedDownloadLeavesAnEmptyApp | crates/iphoneloadly-api/src/sources.rs:555-612 | a run in which a download fails after its first statement and leaves an app without a file |
| LatestSuccess.MaxIsGreatest | crates/iphoneloadly-api/src/store.rs:365-369 | the subquery's maximum is the greatest completion time, and null over no rows |
| LatestSuccess.QueriesAgree | crates/iphoneloadly-api/src/store.rs:352-456 | managed list, validity, attention and due queries all filter one relation, the latest successes of live managed pairs, by age alone |
| LatestSuccess.CompletedLastIsLatest | crates/iphoneloadly-api/src/store.rs:700-733 | a row passes the subquery exactly when no success of its pair is later |
| LatestSuccess.AttentionIsDueOneDayEarlier | crates/iphoneloadly-api/src/store.rs:385-424 | attention for n + 1 days lists exactly what is due after n |
| LatestSuccess.DueHasFewDaysLeft | crates/iphoneloadly-api/src/store.rs:425-456 | what is due after n days is listed with at most 7 - n days left |
| LatestSuccess.RemainingDaysIsCeilingExactly | crates/iphoneloadly-api/src/store.rs:430 | the listed days equal the days left rounded up if and only if the remainder of the last day is zero or at least an hour; otherwise they are one too few |
| LatestSuccess.ForgetRemovesOnePair | crates/iphoneloadly-api/src/store.rs:671-686 | forgetting removes that pair from the relation and no other, and is refused exactly while a job of the pair has not ended |
| LatestSuccess.SuccessRestoresThePair | crates/iphoneloadly-api/src/main.rs:2560-2567 | a later success brings the pair back if and only if its status is written, its app is live, the pair is managed or made so, and the clock did not go back; once the status is written the pair is not due; other pairs are left alone |
| AssetMatch.WildcardMatch | crates/iphoneloadly-api/src/github.rs:255-273 | accepted are exactly the values with the first part as prefix, the last as suffix and the middle parts in order without overlap after the prefix |
| AssetMatch.GreedyIsEarliest | crates/iphoneloadly-api/src/github.rs:266-271 | taking the first occurrence of each part ends no later than any other placement |
| AssetMatch.GlobIsParts | crates/iphoneloadly-api/src/github.rs:258 | a glob match character by character is a match part by part |
| AssetMatch.AcceptsVersusGlob | crates/iphoneloadly-api/src/github.rs:255-273 | a value is a glob match if and only if it is accepted and the greedy end does not overlap the suffix |
| AssetMatch.OverlapAccepted | crates/iphoneloadly-api/src/github.rs:262-264 | `a*a` accepts `a`, which is no glob match |
| AssetMatch.MatchIpaAsset | crates/iphoneloadly-api/src/github.rs:225-253 | a result is the one and only eligible asset; no asset and several assets are told apart; the pattern error has its exact condition |
| AssetMatch.LowerIgnoresCase | crates/iphoneloadly-api/src/github.rs:231-273 | two texts have one lower-case form exactly if they differ in the case of ASCII letters alone |
| AssetMatch.CaseIsIgnored | crates/iphoneloadly-api/src/github.rs:231-273 | eligibility does not depend on the case of pattern or name, and an eligible name ends in `.ipa` in some case |
| IpaArchive.InspectIpa | crates/iphoneloadly-api/src/ipa.rs:119-229 | the loop accepts exactly the archives whose entries all pass and whose last main property list identifies the app, and returns its metadata; the saturating sum decides as the exact one would; three errors have their exact condition, and every other one names a fault of the first entry that does not pass, or of the archive as a whole |
| IpaArchive.HasParentIffDots | crates/iphoneloadly-api/src/ipa.rs:241-253 | a name has a parent component exactly if `..` stands between slashes, or a slash and an end, somewhere in it |
| IpaArchive.MainBundleIs | crates/iphoneloadly-api/src/ipa.rs:256-265 | a name names a bundle exactly if it is, or lies below, a directory in `Payload` whose name ends in `.app` |
| IpaArchive.PlistIsInItsBundle | crates/iphoneloadly-api/src/ipa.rs:256-265 | the property list of a bundle names that bundle itself, so none is missed before its bundle is known |
| IpaArchive.AcceptedIsAcceptable | crates/iphoneloadly-api/src/ipa.rs:140-229 | for distinct names, acceptance is a test on the set of entries |
| IpaArchive.OrderDoesNotMatter | crates/iphoneloadly-api/src/ipa.rs:140-229 | success and metadata are the same for every order of the entries |
| UpdateChoice.ComparesByPrecedence | crates/iphoneloadly-api/src/update.rs:72-90 | the comparison is the precedence of Semantic Versioning 2.0.0, written out by first differences, with build metadata as the last key |
| UpdateChoice.EligibleIsOffered | crates/iphoneloadly-api/src/update.rs:62-222 | eligible are exactly the published later releases whose first archive announces 64 hexadecimal digits and which have a checksum file, pre-releases only for a pre-release, and the digest read is that one |
| UpdateChoice.VersionOrder | crates/iphoneloadly-api/src/update.rs:72-90 | any two versions compare, and only equal ones as equal |
| UpdateChoice.VersionTransitive | crates/iphoneloadly-api/src/update.rs:72-90 | the order of versions is transitive |
| UpdateChoice.InfoCandidate | crates/iphoneloadly-api/src/update.rs:62-94 | the first release with the greatest eligible version, or none exactly when no release is eligible |
| UpdateChoice.RequestCandidate | crates/iphoneloadly-api/src/update.rs:182-222 | the same release with its digest, found by a loop written differently |
| UpdateChoice.BestIsUnique | crates/iphoneloadly-api/src/update.rs:62-222 | at most one release is the best |
| UpdateChoice.OfferAndTake | crates/iphoneloadly-api/src/update.rs:62-222 | the page offers and the request takes the same version and digest, of a release that may be offered and that no other such release is after, exactly if there is one |
| Rollback.KeysDoNotCollide | deploy/host/update-iphoneloadly.sh:107-121 | different absolute targets without underscores have different backup names, and no marker is a backup |
| Rollback.UnderscoresCollide | deploy/host/update-iphoneloadly.sh:110-111 | with underscores two paths may share a backup name |
| Rollback.FootprintIsBackedUp | deploy/host/install-iphoneloadly.sh:151-163 | every file the installer replaces is backed up |
| Rollback.BackupGrows | deploy/host/update-iphoneloadly.sh:107-121 | backing up one more target disturbs no earlier backup |
| Rollback.Host.CaptureEnablement | deploy/host/update-iphoneloadly.sh:24-31 | a flag is set exactly for a unit that is enabled and whose call answered; both are exact if and only if every call about an enabled unit answered |
| Rollback.Host.BackupRuntime | deploy/host/update-iphoneloadly.sh:107-121 | the backup succeeds exactly if every copy does, and then every target's content or absence is saved |
| Rollback.Host.RunInstaller | deploy/host/install-iphoneloadly.sh:151-163 | wherever it stops, only the seven targets and two units are touched; it succeeds exactly if each of its calls does, and then all are the package's |
| Rollback.Host.RestoreRuntime | deploy/host/update-iphoneloadly.sh:122-153 | every target always holds its present or its saved state; it succeeds exactly if every call for a saved target does, and then each holds its saved one |
| Rollback.Host.RestoreEnablement | deploy/host/update-iphoneloadly.sh:32-49 | it succeeds exactly if both calls do, and a call that does leaves its unit as captured, whatever the other did |
| Rollback.Host.RollbackRuntime | deploy/host/update-iphoneloadly.sh:154-185 | it succeeds exactly if each of its calls does; once the stop and the restoring calls succeed every target is as saved, whatever fails later; if the stop fails nothing changes |
| Rollback.Host.RollBackTo | deploy/host/update-iphoneloadly.sh:154-185 | said of the time before the upgrade: once the stop and the restoring calls succeed the files are exactly the earlier ones, and after a rollback that succeeds the units are too if and only if the captured flags are exact |
| Rollback.Host.Update | deploy/host/update-iphoneloadly.sh:191-280 | which of its calls succeed fixes how the upgrade ends: it rolls back exactly if the installer stopped and no call of the rollback fails, leaves all files exactly as they were, from wherever the installer stopped, once the stop and the restoring calls succeed, and the units too if and only if the captured flags are exact, which a failed call can only spoil towards disabled; one that stops before the installer changes nothing |
| Rollback.Host.Prepare | deploy/host/update-iphoneloadly.sh:273-276 | the installer starts exactly if every copy and the report before it succeed, and then every target is saved |

## Left out

- Staging.UploadFile: the re-checks of the local file's identity and location before and after reading are one nondeterministic answer.
- Staging.Query: `PublicStaging` itself is only asked about, never created, as in the code.
- Afc.TaskAfcClient.Send: a request whose sending fails counts as not delivered, and its connection is not used again.
- AppStore.AppDatabase.FinishDownload: paths are an app id and an optional digest prefix, as the code builds them; the columns of a source row besides its app and its settings are not modelled.
- InstallRun.InstallRemotePairingApp: discovery, the tunnel, signing and the phone's services are timed steps with nondeterministic results, among them the cleanup of a session that did not open; what signing produces is a parameter.
- Rollback.Host.RunInstaller: temporary files beside the targets, directories, and the service's own start and stop are not part of the modelled state.
- LatestSuccess.QueriesAgree: the columns a query shows besides the pair, the age and the days left are not modelled, nor is the order of its rows.
- The permissions set on the signed tree, signing diagnostics and the scheduling of artifact cleanup.
- Library protocols (RemotePairing, TLS-PSK, RSD, lockdown, mDNS), HTTP handlers, JSON shapes, message texts and tracing.
- Encryption, base64, the property-list and SQLite engines, and the parsing of version tags and ZIP directories.
- The install without an RSD target, and the device list and its merging.
- `latest_eligible_release` and the scheduling of automatic downloads: single selections that would only add easy members.
- Progress of a wireless session: its task may end before its session is published, so no such promise is made.
- AppStore.AppDatabase.RunInstallJob: a status write that fails, a late report and a restart are steps of `AppRuns`, not of this method.
- AppRuns.InvKept: a late report is a progress report of the signing step after its time-out; reports before the job's end are ordinary steps of its task.
- WirelessSession.WirelessPairingService.RunPairing: the sections run without interruption here; every interleaving is in the state machine beside it.
- Rollback.Host.Update: the steps before a verified package, which touch none of the modelled files, and what the status file says.
