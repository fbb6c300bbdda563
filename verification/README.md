# Replication and recovery in the metrics node

A Dafny model of the core of the metrics node runtime (`core/runtime`) and of the
small structures it stands on: how local metric readings are kept in step with a
remote variable store, how the session recovers after errors, how the runtime
configuration stays consistent, how threads wake each other, and what the
arithmetic and text conversions promise. `dafny verify dfyconfig.toml` checks it.

## How it is built

- **Values first.** `Replication`, `Session`, `Config`, `NotifyRuntime` and
  `EventQueue` say as functions on values what one call does. The classes
  `RuntimeNode.Runtime`, `RuntimeConfig.Configuration`, `ConfigStore.Store`,
  `ActionQueue.Queue`, `EventQueue.Queue`, `ControlWorker.Worker` and `NotifyRuntime.NotifyListener`
  update fields and run loops as the Go code does, and every method states its new
  state by such functions of the old one. The theorems are about the functions, over
  whole runs.
- **Single operations in plain terms.** `ReplicationEffects`, `SessionEffects`,
  `ConfigStarts`, `ConfigEffects` and `NotifyEffects` say what one operation does, in
  every outcome, by the names, texts and numbers of the program and without the
  functions that compute it.
- **Interleavings.** `ReplicationAsync` runs a node and a hub over a first-in
  first-out channel each way, over any number of sessions; what readings, writes and
  logins do there is told by `ReplicationResults`, `ReplicationLogins`,
  `ReplicationWritable`, `ReplicationSettling` and `ReplicationDefaults`. `Session`
  runs sequences of undisturbed connects, logins, errors, recoveries and closes;
  `Reconnect` cuts `Close`, session-error callbacks and recovery loops at every mutex
  section and atomic access. `ConfigSignal` and `ActionQueue.Shared` do the same for
  the two wake-up protocols.
- **Text is bytes.** One `char` stands for one byte of a Go string, so lengths and
  cuts are byte lengths and byte cuts; white space is Go's, recognised on UTF-8.
- **JSON is structured.** A stored document is plain text or a list of objects. A
  number keeps the text it prints as. The text `null`, which Go decodes to an empty
  list, is the empty list.

Assumptions about the hub, which is not part of this repository: it stores the sets
it receives, and it notifies the owner of every foreign write, in order. Whether it
also echoes the owner's own sets is left open. A session delivers everything until
it ends, and closing it reports no session error. Recording a publish and sending it
are one step. Saving a document succeeds.

A variable is *left behind* when a login, a registration or a change of defaults is
followed by no republish and the node is then not convergent on it; it is so until it
is convergent again. The history field `stale` of `ReplicationAsync.World` names these.
An event is *harmless* to a variable (`ReplicationLogins.Harmless`) by a condition on
the state before it: it republishes, or what it takes over is already right.

## Findings

Where the code does less than a reader may expect, a lemma says exactly when:

- A session error that arrives between the recovery loop's success test and its
  deferred reset is lost (`Reconnect.SplitExitCanStrand`); until a close this is the
  only way to be left without recovery (`Reconnect.StrandedExactlyWhenMissed`).
- A foreign write that changes only the visibility is not corrected
  (`ReplicationResults.VisibilityIsNotCorrected`).
- A variable others may write can end up different from its metric. After a reading
  the hub ends with it unless the cache suppresses it while the hub is bound to end with
  something else, and then it does not (`ReplicationSettling.ReadingSettlesExactly`).
  With nothing of the variable under way that happens only after a set and a
  notification have crossed, or a login has taken over a cache its hub contradicts
  (`UncrossedReadingSettles`, `WritableMayDiverge`); a crossing leaves cache and hub at
  odds exactly when the two differ and the hub does not echo
  (`ReplicationWritable.CrossingAgreesExactly`). Between a foreign write and the next
  reading metric and hub differ without any crossing (`WriteStandsUntilRead`), which is
  what writing is for.
- A login made while reporting is off republishes nothing
  (`ReplicationLogins.SilentLoginRepairsNothing`). That is harmless before the first
  reading (`OrderlyLeavesNothing`), and later leaves a variable behind exactly when the
  new hub does not hold what the cache holds (`SilentLoginLeavesExactly`); on a session
  that is still up after a failed login, exactly when what is under way does not end in
  it (`LateReloginKeeps`).
- The recovery loop does not ask whether the session is up: a connect and a login made
  by hand while it waits are undone by its next attempt, and if that attempt's dial fails
  the runtime stays marked as logged in without a connection
  (`Session.RecoveryCanBreak`). No other call does that (`Session.CallBreaksExactly`).
- A close cancels the loop but does not reset its flag. An error that follows a close and
  a new connect before the cancelled loop has ended starts no recovery
  (`Session.ReconnectCanStrand`), and without overlapping calls this is the only way to be
  left without one (`Session.CallStrandsExactly`).
- A metric bound twice loses all but its last binding
  (`ConfigFacts.RoundTripIsLossless`).
- Text limits of two and three bytes are not stable (`EventText.StableLimits`); the
  limits in use are.
- A disabled topic is still let in when the new subscription fails
  (`NotifyRuntime.DisabledTopicLingersExactly`).
- A monitor range of 42949673 steps or more is misread, because the product wraps
  (`Brightness.ReadingIsExactUnlessItWraps`), and so is written back too low
  (`Brightness.WriteBackIsClose`). A range of fifty steps or fewer reads back too far
  from what was written (`Brightness.ReadBackIsClose`).
- A failed volume change drops the mute of the same batch
  (`ControlWorker.CarriesExactly`).
- A login nonce with an inner newline would make the signed bytes ambiguous
  (`LoginMessage.DecodeInvertsEncode`); generated nonces are hexadecimal.

## Model

| member | source | states |
|---|---|---|
| ReplicationAsync.InvHolds | core/runtime/runtime.go:762-853 | in every reachable state of node, hub and channels, over any number of sessions, each variable that is the node's alone to set and has not been left behind is convergent: the cache holds the metric's value, and what is under way ends in it |
| ReplicationAsync.StepKeepsInv | core/runtime/varstore_inbound.go:63-169 | every event keeps that invariant: readings, foreign writes, deliveries with or without echo, changed defaults, lost sessions, logins on a new or a live session, failed logins, registrations, switching reporting |
| ReplicationAsync.MoveKeeps | core/runtime/runtime.go:593-667 | an event that republishes what it should leaves no variable behind: one that was convergent stays so |
| ReplicationLogins.OrderlyLeavesNothing | core/runtime/runtime.go:693-735 | no variable is left behind in the first session of a process, in which the login comes before reporting, nor in any session whose login was made while reporting |
| ReplicationLogins.FirstSessionLeavesNothing | docs/change/2026-03-03_metricsnode-settings-ui.md:10 | log in or register once, then start to report: no variable is ever left behind in such a run |
| ReplicationLogins.SilentLoginLeavesExactly | core/runtime/runtime.go:929-937 | in any reachable state, a login or registration that republishes nothing leaves a variable behind if and only if the new hub does not hold what the cache holds of it, the metric's value once it was read |
| ReplicationLogins.SilentDefaultsLeaveExactly | core/runtime/config.go:597-626 | in any reachable state, changed defaults that are not republished leave exactly the variables behind that show a missing battery under another text |
| ReplicationLogins.LateReloginKeeps | core/runtime/runtime.go:593-667 | a login on a session that is still up after a failed one leaves a variable convergent if and only if it republishes the variable, or cache, hub and what is under way already agree on the value it stands for, or on the cached one while its metric was never read |
| ReplicationLogins.HarmlessExactly | core/runtime/config.go:597-626 | for every event, a convergent variable stays so if and only if the event is harmless to it |
| ReplicationLogins.KeptAlong | core/runtime/runtime.go:762-853 | a variable convergent in some state stays so over any further run of harmless events |
| ReplicationLogins.SilentLoginRepairsNothing | core/runtime/runtime.go:929-937 | a run from the start of the process to a state with nothing under way, a reading just taken, and a hub that does not know the variable |
| ReplicationResults.CacheAndHubConverge | core/runtime/varstore_inbound.go:82-105 | asynchronous convergence, in every state of a run in which, since the last login that republished, every login, registration or change of defaults without a republish came before the first reading: the cache holds the known value, and the hub with the up channel drained holds it too, unless its different value is the last notification still to come |
| ReplicationResults.QuietHubAgrees | core/runtime/varstore_inbound.go:153-168 | in such a run, with both channels empty, the hub holds the value the metric stands for, whatever the interleaving was |
| ReplicationResults.SparedConverges | core/runtime/varstore_inbound.go:63-169 | the same of one variable in any run in which every event since the last login that sent it again was harmless to it |
| ReplicationResults.CorrectionsTerminate | core/runtime/varstore_inbound.go:89-105 | once foreign writes and readings stop, no run of deliveries is longer than a measure of what was under way, even with a hub that echoes |
| ReplicationResults.HandlingSends | core/runtime/varstore_inbound.go:153-168 | in any state, a notification addressed to the node adds exactly one message, the node's value under the default visibility, if it is of a protected variable with a known value and says something else; otherwise it adds none |
| ReplicationResults.CorrectedExactlyWhenChanged | core/runtime/varstore_inbound.go:89-105 | from any quiet state of a run, left-behind variables included, a foreign write draws a correction if and only if it changes the value, after trimming |
| ReplicationResults.VisibilityIsNotCorrected | core/runtime/varstore_inbound.go:98-100 | a foreign write of the same value under another visibility stays at the hub with nothing under way |
| ReplicationResults.ReloginResends | core/runtime/runtime.go:654-664 | from any reachable state, a login while reporting, on a new session with any hub or on the live one, sends every bound variable with a reading under the default visibility, records it so, and leaves none of them behind |
| ReplicationWritable.UncrossedAgrees | core/runtime/varstore_inbound.go:82-152 | in any run in which no set and notification of a variable cross and no login takes over a cache the hub contradicts, the hub holds what the cache holds of it, value and visibility, whenever nothing of it is under way, writable variables included |
| ReplicationWritable.CrossingAgreesExactly | core/runtime/varstore_inbound.go:200-220 | where, in any reachable state, a set and a notification of a writable variable cross and all then arrives, in any order, the hub ends with the set and the cache with the notification, or with the set if the hub echoes, value and visibility; they agree if and only if the hub echoes or both say the same |
| ReplicationSettling.ReadingSettlesExactly | core/runtime/runtime.go:762-853 | from any reachable state, whatever is under way, when the metric of a writable variable is read and then everything arrives, the hub ends with the reading if and only if the cache did not suppress it or the hub was bound to end with the same value anyway |
| ReplicationSettling.UnreadSettlesExactly | core/runtime/varstore_inbound.go:106-152 | and with no further reading it ends with the node's value if and only if it was bound to |
| ReplicationSettling.UncrossedReadingSettles | core/runtime/runtime.go:827-837 | in a run in which nothing of the variable has crossed and no login has taken over a cache its hub contradicts, a reading made with nothing of it under way always ends at the hub |
| ReplicationSettling.WritableMayDiverge | core/runtime/runtime.go:827-837 | a run from the start of the process with a crossing, to a state with nothing under way in which a suppressed reading and the hub differ |
| ReplicationSettling.WriteStandsUntilRead | core/runtime/varstore_inbound.go:106-114 | a run without a crossing to a state with nothing under way in which the hub holds a foreign write and the metric is not read yet |
| ReplicationDefaults.NewDefaultsArrive | core/runtime/config.go:597-626 | in any state of a run without crossings in which the node reports and nothing of a variable is coming back, new defaults put the variable's reading, as it shows now and under the new visibility, into the cache, where it stays through all deliveries that cross nothing, and at the hub once its set has arrived |
| ReplicationSync.DedupeIsInvisible | core/runtime/runtime.go:807-853 | with immediate delivery, over any run of readings, foreign writes, changed defaults and reporting switches, writable variables included, the hub reads as if every publish had been sent |
| ReplicationSync.CacheEqualsHub | core/runtime/varstore_inbound.go:200-220 | in such a run the cache equals the hub's entry, value and visibility, for every name it holds |
| ReplicationEffects.ReadingIsPublished | core/runtime/runtime.go:762-805 | a reading is recorded and reaches every variable bound to its metric and no other: the cache says it under the default visibility, and exactly one message is sent unless the cache said so already; a battery reading of -1 shows as the configured text |
| ReplicationEffects.ReadingIsIgnored | core/runtime/runtime.go:766-779 | a node that does not report or has no session, and any node of a blank reading, changes nothing |
| ReplicationEffects.RepublishIsExact | core/runtime/config.go:597-626 | a republish publishes each bound variable that has been read once, as its reading shows and under the default visibility, touches no other, and does nothing unless the node reports and has a session |
| ReplicationEffects.RepublishIsOrdered | core/runtime/config.go:617-625 | its messages leave in the order of the bindings |
| ReplicationEffects.LoginIsExact | core/runtime/runtime.go:654-664 | a granted login sets node and hub id, each its own; a reporting node then starts from an empty cache and sends each variable that has been read exactly once, under the default visibility; one that does not report keeps its cache and sends nothing |
| ReplicationEffects.RefusedIsAnswered | core/runtime/varstore_inbound.go:91-105 | a write to a variable that shows one of the seven readings, or whose control is turned off, queues nothing; with a reading that differs exactly one message sets the hub right and the cache says what it says, otherwise the write is recorded and nothing is sent |
| ReplicationEffects.OwnedIsRefused | core/runtime/varstore_inbound.go:91-106 | the variables the convergence results are about are exactly those, in terms of metric names and the writable flag |
| ReplicationEffects.NoticeIsIgnored | core/runtime/varstore_inbound.go:68-86 | a notification without a session, name or value, for another node, or of no variable of this one changes nothing |
| ReplicationEffects.WritableIsQueued | core/runtime/varstore_inbound.go:106-152 | a write to a writable control is recorded with its visibility in normal form, sends nothing, and changes nothing else but the queue |
| ReplicationEffects.PercentIsQueued | core/runtime/varstore_inbound.go:106-139 | a 64-bit number written to a writable percent, however it is spelled, is queued as 0, 100 or itself, whichever is nearest, and nothing is sent |
| ReplicationEffects.NoNumberQueuesNothing | core/runtime/varstore_inbound.go:108-114 | text that is no number is shadowed and queues nothing |
| ReplicationEffects.SwitchIsQueued | core/runtime/varstore_inbound.go:117-152 | the five words for on and for off, in any ASCII case, are queued as 1 and 0; other words queue nothing |
| ReplicationFacts.PublishMarks | core/runtime/runtime.go:827-837 | one publish leaves the cache saying the value, and the channel too unless the cache already said it; no other name is touched |
| ReplicationFacts.EachMarks | core/runtime/config.go:617-625 | a run of publishes marks every planned name and touches no other |
| ReplicationFacts.ReachedConfigIsOk | core/runtime/config.go:538-556 | every configuration the runtime can reach is one replication can work with: names and metrics determine each other and texts are in normal form |
| RuntimeNode.Runtime.constructor | core/runtime/runtime.go:100-130 | a new runtime has the identity it saved, is never logged in, connected or reporting, and has nothing remembered or queued |
| RuntimeNode.Runtime.PublishVar | core/runtime/runtime.go:807-853 | the whole new state of one publish: suppressed, dropped, or recorded and sent |
| RuntimeNode.Runtime.HandleMetricUpdate | core/runtime/runtime.go:762-805 | the loop over bindings publishes exactly the matching ones, in order, after recording the reading |
| RuntimeNode.Runtime.RepublishFromConfig | core/runtime/config.go:597-626 | the loop publishes every binding whose metric has a reading, as it shows, under the default visibility |
| RuntimeNode.Runtime.ForceRepublishFromConfig | core/runtime/runtime.go:929-937 | while reporting, the cache is emptied before the republish; otherwise nothing changes |
| RuntimeNode.Runtime.UpdatePublishedShadow | core/runtime/varstore_inbound.go:200-220 | the cache takes over a foreign value and visibility in normal form |
| RuntimeNode.Runtime.CurrentPublishedMetricValue | core/runtime/varstore_inbound.go:229-244 | the value the metric stands for, or none when it was never read or shows blank |
| RuntimeNode.Runtime.HandleVarStoreNotifySet | core/runtime/varstore_inbound.go:63-169 | the whole new state of one notification: ignored, shadowed, corrected, or turned into a control action |
| RuntimeNode.Runtime.StartReporting | core/runtime/runtime.go:693-735 | reporting starts exactly for a node that is logged in with both ids |
| RuntimeNode.Runtime.Login | core/runtime/runtime.go:593-667 | the whole new state: early refusals change nothing, a failed request logs out, a grant brings the identity, saved, the reconnect intent and a forced republish, and asks a running listener to subscribe again |
| RuntimeNode.Runtime.Register | core/runtime/runtime.go:533-591 | the whole new state: a grant brings the identity, saved, but neither the reconnect intent nor a republish |
| RuntimeNode.Runtime.ClearAuth | core/runtime/runtime.go:516-531 | the identity is forgotten, in memory and on disk, and nothing else |
| RuntimeNode.Runtime.RecoverOnce | core/runtime/runtime.go:437-476 | the whole new state of one attempt: session down, dialled, logged in again with the recorded identity; without one it succeeds only if nothing is to be restored |
| RuntimeNode.Runtime.OnClientError | core/runtime/runtime.go:228-239 | a session error marks the node down and logged out, saves that, forgets nothing, and starts a recovery exactly if one is wanted and none runs |
| RuntimeNode.Runtime.Close | core/runtime/runtime.go:273-289 | an undisturbed close cancels the recovery, drops intent, reporting, listening, login, connection and address, and keeps readings, cache and queue |
| RuntimeNode.Runtime.ConnectTransport | core/runtime/runtime.go:291-331 | a dial succeeds, or finds a session the transport holds, kept if it is known to be up and dialled once more if not; the address is recorded exactly on success |
| RuntimeNode.Runtime.Connect | core/runtime/runtime.go:241-271 | the whole new state: another address closes first, and only a connection made brings the reconnect intent |
| Session.RunsAreSound | core/runtime/runtime.go:241-289 | after any sequence of connects, logins, registrations, errors, recoveries, closes and clearings, whatever hub and transport answer: connected or logged in only where a connection is wanted, wanted only with an address to dial, and memory and disk agree on the identity |
| Session.RestartTakesUp | core/runtime/runtime.go:946-970 | a process started on what any such sequence saved takes up its identity, logged out |
| Session.CallBreaksExactly | core/runtime/runtime.go:437-449 | one call leaves a login without its connection if and only if it is a recovery attempt, made while logged in, whose dial fails |
| Session.LoginNeedsConnection | core/runtime/runtime.go:593-608 | in every sequence without such an attempt, logged in implies connected |
| Session.RecoveryCanBreak | core/runtime/runtime.go:447-450 | a sequence in which that happens: a connect and a login by hand while the loop waits |
| Session.RecoveryUndoesError | core/runtime/runtime.go:437-476 | after any sequence that ends logged in, a session error and then an attempt that reaches the hub and is granted the same identity restore connection, login, reporting and listening as they were, if and only if the node's number is not zero |
| Session.CallStrandsExactly | core/runtime/runtime.go:346-364 | one call leaves a wanted connection down with no loop to restore it if and only if it is an error that finds the flag of a cancelled loop still set |
| Session.WantedIsWorkedFor | core/runtime/runtime.go:346-384 | in every sequence without such an error, a connection that is wanted and down has a loop at work |
| Session.ReconnectCanStrand | core/runtime/runtime.go:366-384 | a sequence in which that happens: a close and a new connect before the old loop has ended |
| SessionEffects.DialIsExact | core/runtime/runtime.go:291-331 | a dial that makes a connection, or finds one that is up, records the address and leaves the node connected; a session found that is not up is closed; identity, intent, reporting and listening stay |
| SessionEffects.MovingEndsTheSession | core/runtime/runtime.go:254-258 | a connect to another address than the one in use ends login, reporting and listening, on disk too, and cancels a running loop; it is connected and wanted exactly if the dial made a connection, and the address is the new one |
| SessionEffects.StayingKeepsTheSession | core/runtime/runtime.go:246-331 | a connect to the same address, or from none, keeps identity, reporting and listening, and a connection that is up |
| SessionEffects.LoginIsAnswered | core/runtime/runtime.go:593-667 | a login that cannot be sent changes nothing, one that is not granted logs out in memory only, a grant brings device, node and hub id, each its own, to memory and disk, and the reconnect intent |
| SessionEffects.RegistrationIsAnswered | core/runtime/runtime.go:533-591 | a registration is answered in the same way but leaves the intent as it was |
| SessionEffects.ClearingForgets | core/runtime/runtime.go:516-531 | clearing forgets device, node and hub id in memory and on disk, so that the next process starts as nobody |
| SessionEffects.StartIsClean | core/runtime/runtime.go:946-970 | a process starts as whoever the disk names, logged out, and with nothing of a session |
| SessionEffects.ErrorTakesTheSession | core/runtime/runtime.go:228-239 | a session error takes connection and login, on disk too, and nothing else; a loop runs afterwards if the connection is wanted, a new one unless one did already |
| SessionEffects.CloseTakesAll | core/runtime/runtime.go:273-289 | a close takes connection, intent, address, reporting, listening and login and cancels a running loop; device, node and hub id stay |
| SessionEffects.AttemptIsExact | core/runtime/runtime.go:437-476 | one attempt in every outcome: the session is gone whether or not it was up, the connection is there exactly if the dial made it, and the login is of the recorded identity, if there is one, as it was answered |
| Reconnect.CloseWins | core/runtime/runtime.go:273-289 | for every interleaving of Close with recoveries and session errors, once Close is through and no loop is live there is no intent, connection, session, login, reporting or listening |
| Reconnect.OvertakenLoopEnds | core/runtime/runtime.go:437-476 | each step of a recovery overtaken by Close brings it nearer its end, within 21 steps |
| Reconnect.AtMostOneLoop | core/runtime/runtime.go:346-364 | with any number of concurrent session errors at most one recovery loop is live, exactly while the running flag is set |
| Reconnect.NeverStranded | core/runtime/runtime.go:378-435 | without a Close, and with the success test and the reset as one step, an unconnected runtime under intent always has a loop or a callback at work |
| Reconnect.ErrorLeavesALoop | core/runtime/runtime.go:346-364 | in such runs the callback that schedules a recovery leaves a live loop behind |
| Reconnect.StrandedExactlyWhenMissed | core/runtime/runtime.go:378-384 | with the two as separate steps the runtime is stranded if and only if an error was left to a loop that had already judged itself done |
| Reconnect.SplitExitCanStrand | core/runtime/runtime.go:378-384 | a run in which that happens, from any healthy state with an address and an identity |
| Reconnect.RecoveryIsExact | core/runtime/runtime.go:386-476 | from an error in any healthy state with an address, an undisturbed attempt comes to its verdict with session and connection as the dial went, the login as it was answered, and reporting, listening and the intent as they were; its loop goes on if and only if it did not succeed |
| Backoff.Waits | core/runtime/runtime.go:386-434 | the k-th wait of a loop is the first delay doubled k times, capped by the maximum; a non-positive delay counts as one second and a first delay beyond the maximum is kept |
| Backoff.NextWait | core/runtime/runtime.go:386-434 | the first wait is the setting, or one second without one, and each further wait twice the last while that is below the maximum, and at most it |
| Backoff.WaitsGrow | core/runtime/runtime.go:415-434 | waits never shrink, and stay between the two settings when these are in order |
| Backoff.DefaultWaits | core/runtime/runtime.go:36-37 | the runtime's own settings wait 1, 2, 4, 8 and 16 seconds, and 30 from then on |
| ConfigRuns.InvHolds | core/runtime/config.go:469-556 | after startup and every change, accepted or rejected, and every restart: stored settings parse to the live ones, stored bindings are their enabled projection, and every view is derived from them |
| ConfigRuns.RestartIsStable | core/runtime/config.go:348-391 | a restart on the store any run left yields the same live configuration and the same store |
| ConfigRuns.UpgradeFiresInVain | core/runtime/config.go:365-374 | when the enabled metrics happen to equal an old default list the upgrade branch fires, and still no disabled metric comes back |
| ConfigRuns.FirstStartKeepsCustomBindings | core/runtime/config.go:376-386 | a first start without settings binds exactly what the file's bindings name, the last of each metric; only unreadable or old default lists are replaced |
| ConfigRuns.EnabledMeansBound | core/runtime/config.go:538-544 | a metric counts as enabled exactly when a binding covers it |
| ConfigRuns.IndexMatchesScan | core/runtime/varstore_inbound.go:179-198 | index lookup finds a name exactly when the scan of bindings does, with the same metric, and with the writability the settings say |
| ConfigRuns.TopicsReadBack | core/notify/settings.go:45-66 | accepted topic settings are trimmed, distinct and within their length, and read back from the store unchanged |
| ConfigStarts.DefaultsAreListed | core/runtime/config.go:69-86 | the default list, metric by metric, each under its name with the prefix sys_ |
| ConfigStarts.OldListsAreListed | core/runtime/config.go:88-103 | exactly the two old default lists, metric by metric, are upgraded |
| ConfigStarts.FirstStartSettles | core/runtime/config.go:376-386 | a first start enables a metric exactly if the file's bindings cover it, under the name the last of them gives, and everything that can be controlled is found controllable by its name |
| ConfigStarts.StartReadsSettings | core/runtime/config.go:492-512 | a start takes stored settings that validate as they are; blank or unusable ones give way to the defaults, all enabled and controllable |
| ConfigStarts.StartReadsDefaults | core/runtime/config.go:514-534 | visibility, missing-battery text and topics are read from any file, and replaced by public, -1 and none where they cannot be used |
| ConfigStarts.EmptyStart | core/runtime/config.go:354-360 | a first start on nothing enables every supported metric under its default name, public, with -1 for a missing battery and no topics |
| ConfigEffects.SettingsTakeEffect | core/runtime/config.go:418-424 | new settings are accepted exactly when they validate, become live as validated, and leave the other views; a rejected set changes nothing |
| ConfigEffects.BindingsTakeEffect | core/runtime/config.go:474-490 | new bindings are accepted exactly when all are supported, valid and of distinct names; the last one of each metric becomes live, and every control is found controllable by its name |
| ConfigEffects.VisibilityTakesEffect | core/runtime/config.go:189-200 | exactly the texts public, private and blank are accepted, in any ASCII case, and no list; every other view stays |
| ConfigEffects.NoBatteryTakesEffect | core/runtime/config.go:202-208 | exactly what is not blank is accepted, text trimmed and a list as the text it is; every other view stays |
| ConfigEffects.TopicsTakeEffect | core/runtime/config.go:437-443 | topics are accepted exactly when none is blank or longer than 256 bytes; the first entry of each becomes live |
| ConfigEffects.TopicsAreRead | core/notify/settings.go:45-66 | the topics read are the first entries of each topic, in order, off unless the entry says on |
| ConfigEffects.SettingsAcceptedExactly | core/runtime/config.go:279-346 | settings validate if and only if every entry has a supported metric and a valid name and no two metrics end up enabled under one name |
| ConfigEffects.SettingsTextTakesEffect | core/runtime/config.go:267-277 | blank settings text brings the default settings, all enabled and controllable; any other text is rejected and changes nothing |
| ConfigEffects.BindingsTextTakesEffect | core/runtime/config.go:211-220 | blank bindings text binds every supported metric under its default name; any other text is rejected and changes nothing |
| ConfigEffects.TopicsTextTakesEffect | core/notify/settings.go:21-31 | blank topics text leaves no topic; any other text is rejected and changes nothing |
| ConfigEffects.OtherKeysAreKept | core/runtime/config.go:446-453 | an unknown key is stored and changes no view |
| ConfigFacts.TablesAreOk | core/runtime/config.go:69-86 | on both platforms the default list covers each supported metric once, under valid and distinct names |
| Metrics.ClassesAreListed | core/metrics/metrics.go:21-37 | the four metrics that can be controlled and the seven that are read only, name by name |
| ConfigFacts.AcceptedIsCanonical | core/runtime/config.go:279-346 | accepted settings list every supported metric once, in default order, under valid names, distinct where enabled; read-only metrics are never writable |
| ConfigFacts.LastDuplicateWins | core/runtime/config.go:289-319 | each accepted setting is the last input entry of its metric, with absent flags read as true and writability only for controllable metrics |
| ConfigFacts.UnnamedIsDisabled | core/runtime/config.go:321-333 | a metric the input does not name is disabled under its default name, and controllable if it can be |
| ConfigFacts.CanonicalIsAccepted | core/runtime/config.go:279-346 | validation is the identity on canonical settings |
| ConfigFacts.EnabledAreProjected | core/runtime/config.go:144-156 | the bindings of settings are the enabled ones, each once, in order |
| ConfigFacts.RoundTripKeepsTheLast | core/runtime/config.go:158-182 | from bindings to settings and back, exactly the last binding of each metric survives |
| ConfigFacts.RoundTripIsLossless | core/runtime/config.go:144-182 | that round trip is a reordering that loses nothing if and only if no metric is bound twice |
| RuntimeConfig.ValidateBindings | core/runtime/config.go:222-246 | the loop with its set of seen names accepts exactly the lists whose metrics are supported and whose names are valid and distinct, and returns them trimmed |
| RuntimeConfig.ValidateSettings | core/runtime/config.go:279-346 | the three loops over maps compute the settings the properties above are about, or reject |
| RuntimeConfig.SettingsFromBindings | core/runtime/config.go:158-182 | the map of last names yields, per supported metric, its last binding or its disabled default |
| RuntimeConfig.SettingsToBindings | core/runtime/config.go:144-156 | the loop yields the enabled projection |
| RuntimeConfig.IndexSettings | core/runtime/config.go:536-544 | the loop yields the enabled-metric set and the name index of the settings |
| RuntimeConfig.NormalizeTopics | core/notify/settings.go:45-66 | the loop keeps the first entry of each topic, or rejects a blank or overlong one |
| RuntimeConfig.Configuration.constructor | core/runtime/config.go:348-391 | startup on any store file ends in the state overlay, upgrade, settling and reload define |
| RuntimeConfig.Configuration.ReloadRuntimeConfig | core/runtime/config.go:469-556 | a reload leaves store and views as defined and renews the change broadcast once |
| RuntimeConfig.Configuration.RuntimeConfigSet | core/runtime/config.go:407-454 | an accepted set stores, reloads and signals once; a rejected one changes nothing and signals nobody; memory and disk agree after both |
| ConfigStore.Store.constructor | core/configstore/store.go:23-45 | a store starts as its defaults overlaid with what the file held, saved back |
| ConfigStore.Store.Get | core/configstore/store.go:61-73 | a lookup trims its key and finds exactly what memory holds under it |
| ConfigStore.Store.Set | core/configstore/store.go:75-90 | a set changes one entry under the trimmed key and saves; a blank key changes nothing |
| ConfigStore.Store.Save | core/configstore/store.go:115-133 | the snapshot written is the map in memory, entry by entry |
| ActionQueue.Queue.Enqueue | core/runtime/control_queue.go:32-53 | the newest value of a metric replaces the older one and the token is there; a blank metric or value changes nothing |
| ActionQueue.Queue.DequeueAll | core/runtime/control_queue.go:56-75 | a drain hands out every pending entry once, strictly sorted by metric, and empties the map |
| ActionQueue.BatchIsUnique | core/runtime/control_queue.go:72-74 | the batch is determined by the pending map, whatever order the map is walked in |
| ActionQueue.LessIsByBytes | core/runtime/control_queue.go:72-74 | the order of a batch is that of the first byte in which two metrics differ |
| ActionQueue.CoalescingPreservesMeaning | core/runtime/control_queue.go:32-75 | wherever drains fall, the drained batches and then the pending map set every metric as all enqueues in order would have |
| ActionQueue.NoStrandedAction | core/runtime/control_queue.go:42-52 | with any number of producers and consumers, whenever something is pending there is a token, a producer about to offer one, or a consumer about to drain |
| ControlWorker.Worker.Work | core/runtime/control_worker_windows.go:56-124 | one turn of the worker issues exactly the commands its selection, parsing and clamping define, given how the devices answer, and gives the endpoint up exactly when a call on it failed |
| ControlWorker.PendingIsCanonical | core/runtime/varstore_inbound.go:106-152 | whatever arrives and wherever drains fall, only percents 0..100 as they print, and 0 and 1, are ever pending |
| ControlWorker.CarriesExactly | core/runtime/control_worker_windows.go:84-121 | on such batches the worker issues exactly the commands the values spell and whose device is there: no parse fails and no clamp changes a value |
| ControlWorker.CarriedInOrder | core/runtime/control_worker_windows.go:84-121 | each device is driven at most once for a batch, volume before mute before brightness |
| ControlWorker.EndpointAfter | core/runtime/control_worker_windows.go:70-110 | the audio endpoint is open after such a batch exactly if it was or could be opened for it, and no call on it failed |
| ControlWorker.EveryDrainIsCarriedOut | core/runtime/control_worker_windows.go:54-66 | in any run of session and worker, that holds of every batch handed out |
| ConfigSignal.AnyMetricEnabled | core/metrics/collectors_windows.go:67-77 | the test succeeds exactly when one of the metrics is enabled, or when there is no way to tell |
| ConfigSignal.NoLostWakeUp | core/metrics/collectors_windows.go:86-110 | a collector asleep on the channel that is still open has no enabled metric, unless a writer is between storing and signalling |
| ConfigSignal.WorksOnlyWhenEnabled | core/metrics/collectors_windows.go:79-110 | a collector goes to work only if, at some moment of its run, one of its metrics was enabled |
| ConfigSignal.WakesUp | core/runtime/runtime.go:132-152 | once the writers are quiet, a collector with an enabled metric finishes within 3n + 6 of its own steps |
| EventQueue.Queue.Enqueue | core/notify/queue.go:21-38 | a full queue drops its oldest event and counts it; the new event is last |
| EventQueue.Queue.DequeueAll | core/notify/queue.go:40-53 | a drain hands out everything held, in order |
| EventQueue.HoldsTheNewest | core/notify/queue.go:21-38 | after any run the items are the newest of the events since the last drain, as many as fit, in order |
| EventQueue.DeliversInOrder | core/notify/queue.go:21-53 | everything delivered and held is a subsequence of everything enqueued |
| EventQueue.NothingVanishes | core/notify/queue.go:55-62 | enqueued equals delivered plus held plus dropped |
| EventText.StableLimits | core/notify/event.go:145-154 | limiting text twice changes nothing, for every text, if and only if the limit is neither two nor three |
| EventText.LimitedIsSingleSpaced | core/notify/event.go:145-154 | limited text has single spaces between words and none at its ends, fits its limit, and is empty only for blank text |
| EventText.LimitedKeepsTheFront | core/notify/event.go:145-154 | text that does not fit keeps its front up to three bytes before the limit, then three dots |
| EventText.FieldsOfJoin | core/notify/event.go:146-146 | splitting into words inverts joining with spaces, so no word is lost or merged |
| NotifyEvent.EventFromPublish | core/notify/event.go:59-87 | an event is made exactly when topic and name are not blank and the topic passes the filter, and it is the event defined for the publish |
| NotifyEvent.ExtractTitleBody | core/notify/event.go:89-110 | the reassigned locals end in the first texts that are not blank, limited |
| NotifyEvent.EventsAreWellMade | core/notify/event.go:59-110 | every event has a title of at most 96, a body of at most 220 and an id of at most 316 bytes, none blank, all single-spaced |
| NotifyEffects.EventSays | core/notify/event.go:59-143 | the title is what the payload says under title, subject or summary, else the name; the body what it says under body, message, text, content or summary, else the payload, else the topic; id, time stamp and the rest are those of the publish |
| NotifyEffects.FrameIsRead | core/notify/event.go:30-57 | exactly the frames of 1 to 32768 bytes that spell publish with a topic and a name are read |
| NotifyEvent.FirstStringIsFirst | core/notify/event.go:112-128 | the text taken from a payload is that of the first key whose member says something |
| NotifyEvent.PreviewIsCutOnce | core/notify/event.go:130-143 | a body that is the payload's preview is not cut again |
| NotifyRuntime.QueuedEventsAreProper | core/runtime/notify.go:156-201 | every event held or handed out in any run keeps those bounds, and its topic was subscribed or enabled when it was queued |
| NotifyRuntime.StoppedStaysQuiet | core/runtime/notify.go:67-78 | a stopped listener lets nothing in until it is started again |
| NotifyRuntime.FreshSubscriptionIsExact | core/runtime/notify.go:94-137 | after a successful subscription exactly the enabled topics are let in |
| NotifyRuntime.DisabledTopicLingersExactly | core/runtime/config.go:562-568 | a topic the new settings disable is still let in if and only if it was subscribed and the new subscription could not be made |
| NotifyEffects.StartIsExact | core/runtime/notify.go:43-65 | a start is refused without a login or an enabled topic, and otherwise runs, subscribed to exactly the enabled topics, if and only if the node is connected and the hub accepts |
| NotifyEffects.StopIsExact | core/runtime/notify.go:67-78 | a stop ends the subscription and nothing else |
| NotifyEffects.TopicsAreApplied | core/runtime/config.go:562-568 | new topics stop a running listener if none is enabled, and otherwise resubscribe it, or leave its old subscription if that fails |
| NotifyEffects.SessionIsTakenUp | core/runtime/runtime.go:260-271 | a connect or a login makes a running listener subscribe anew, if the node is connected and logged in by then |
| NotifyEffects.LossIsExact | core/runtime/runtime.go:228-239 | a lost session takes connection and login; the subscription is kept for the next |
| NotifyEffects.FrameIsTaken | core/runtime/notify.go:156-201 | a frame makes its event, last in a queue of 128, exactly if the listener runs and the topic is subscribed or enabled |
| NotifyRuntime.EnabledTopics | core/notify/settings.go:68-89 | the loop lists each enabled topic once |
| NotifyRuntime.NotifyListener.StartNotify | core/runtime/notify.go:43-65 | listening starts exactly when logged in, with an enabled topic and a subscription; a failed subscription stops it |
| NotifyRuntime.NotifyListener.SubscribeNotifyTopics | core/runtime/notify.go:94-137 | a subscription fails without a trace or takes over the enabled topics |
| NotifyRuntime.NotifyListener.IsNotifyTopicEnabled | core/runtime/notify.go:180-201 | true exactly for topics that are subscribed or enabled by now |
| NotifyRuntime.NotifyListener.HandleTopicBusFrame | core/runtime/notify.go:156-178 | the whole new state of one frame: ignored, or its event queued |
| NotifyRuntime.NotifyListener.ApplyTopics | core/runtime/config.go:562-568 | changed topics stop a running listener without topics and resubscribe one with some |
| LoginMessage.LoginSignBytes | core/auth/keys.go:144-155 | the builder assembles the four-field message |
| LoginMessage.DecodeInvertsEncode | core/auth/keys.go:144-162 | read from its end, a message gives back its trimmed fields if and only if the trimmed nonce holds no newline, whatever the device id |
| LoginMessage.EncodeIsInjective | core/auth/keys.go:144-162 | equal bytes mean equal fields |
| LoginMessage.NewlineInNonceIsAmbiguous | core/auth/keys.go:153-154 | with newlines in nonces two different logins have equal bytes |
| Decimal.PrintThenAtoi | core/runtime/varstore_inbound.go:246-252 | parsing inverts printing over the whole 64-bit range |
| Text.TrimTakesOnlySpaces | core/runtime/varstore_inbound.go:73-74 | trimming takes away the white space at both ends and nothing else |
| Text.LowerIsExact | core/runtime/varstore_inbound.go:255-255 | capital letters become the small letters they are, and nothing else changes |
| Brightness.WriteRaw | core/actuator/brightness_windows.go:116-127 | the value written lies between minimum and maximum, is exact at 0 and 100 percent, and is the rounded share of the range, with no loss to 32- and 64-bit arithmetic; an empty range is refused |
| Brightness.OffsetIsMonotone | core/actuator/brightness_windows.go:120-121 | a larger percent never writes a smaller value |
| Brightness.ReadPercent | core/metrics/collectors_windows.go:754-770 | the percent read is the floored share of the clamped position, capped at 100, as long as its product fits 32 bits; an empty range is refused |
| Brightness.EndsReadExactly | core/metrics/collectors_windows.go:757-769 | the minimum and whatever is reported below it read as 0, the maximum and whatever is above it as 100, unless the product wraps |
| Brightness.ReadingIsExactUnlessItWraps | core/metrics/collectors_windows.go:763-763 | every position of a scale is read exactly if and only if a hundred times the range fits 32 bits |
| Brightness.ReadBackIsClose | core/metrics/collectors_windows.go:757-769 | in the 32-bit arithmetic of the code, reading back every written percent gives it or one less if and only if the range has more than fifty steps and a hundred times the range fits 32 bits |
| Brightness.WriteBackNeverRaises | core/metrics/collectors_windows.go:757-769 | writing back a reading never raises the raw value, at any position of any scale, wrapped products included |
| Brightness.WriteBackIsClose | core/actuator/brightness_windows.go:120-127 | writing back a reading lowers the raw value by at most (range + 48) / 100 at every position of a scale if and only if a hundred times the range fits 32 bits |

## Left out

- Frames, headers, JSON text and the SDK client: messages and documents are structured values. Error texts are not modelled.
- A send that fails by itself: the code logs it and keeps the cache entry. In the model messages are lost only with their session.
- Concurrency of `publishVar`: the code records under its lock and sends after releasing it, so two publishes of one variable can be sent in the other order. Record and send are one step here.
- ReplicationResults.CacheAndHubConverge: speaks of variables the node alone may set; writable ones are the subject of `ReplicationWritable` and `ReplicationSettling`. It says nothing of runs in which a later login, registration or change of defaults was not republished; `ReplicationLogins.HarmlessExactly` says, event by event, when these do no harm.
- Session.WantedIsWorkedFor: calls are single steps there, so that the error `Reconnect.StrandedExactlyWhenMissed` is about cannot arise; attempts of the loop are not cancelled half way.
- Changes of bindings during a session: replication runs over fixed bindings and changing defaults. The cache is not tracked across disabling and enabling a variable, as in the code.
- A login as another node on a session that is up; role and messages saved with a login.
- RuntimeNode.Runtime.Login: the new subscription of a running listener is asked for here and modelled as `NotifyRuntime.NotifyListener.OnLogin`.
- Reconnect.CloseWins: `Close` drops the intent and cancels the loop in one step, since a login of the loop landing between the two would raise the intent again; a connect or login the user makes during a close is not modelled.
- Reconnect is a transition system on values, not a class: its subject is interleaving, which methods of a class cannot show. Connects by the user are calls of `RuntimeNode.Runtime.Connect` and of `Session`, and do not interleave with it.
- ConfigSignal is a transition system for the same reason; a cancelled context, a missing channel and a missing test of metrics are not part of it.
- The listener's calls are single steps: a configuration change between the subscribe request and its reply is not modelled, nor is one between the two lookups of a topic.
- Failing saves, the temporary file and its rename, and the sorted key list of the store.
- Letter case beyond ASCII when text is lowered; integers of 32-bit platforms; overflow of the reconnect delay and wrap-around of the dropped-event counter.
- Key files, signatures and random nonces; floating-point rounding in the collectors; device calls, tickers and OS threads, of which only their success or failure is a parameter.
- Which JSON texts decode to which values, and the compact text of a decoded payload.
- The user interface, the mobile wrappers, the presenter of notifications and the management requests.
