# Verified model of the gateway's credential, streaming, policy and compatibility cores

The project models the parts of the local gateway whose correctness rests on
state, order or encoding, and proves what they keep over every run.

- **Credentials.** `CredentialFiles` and `CredentialStore`: the active, backup,
  temporary and quarantine files of a handle, every operation as a list of atomic
  file effects, a crash as a prefix of it. `RefreshProtocol`: refreshers of
  several processes, purges, binds and deaths, interleaved effect by effect;
  `RefreshProgress`: what its calls achieve.
- **Streaming.** `StreamLifecycle` and `StreamPump`: the per-stream lifecycle as
  an object and the generator as a transition system between its suspensions;
  `StreamProgress`: what it delivers.
- **Control plane.** `ControlPlane`, `ControlPlaneInvariant`, `ControlPlaneRuns`,
  `ControlPlaneFrames`, `ControlPlaneRows`, `ControlPlaneStore`: tables, transactions with
  rollback, published policy.
- **Encodings.** `CodeUnits`, `CanonicalJson`, `CanonicalReader`, `TreeDigest`: what
  signatures and digests are computed over. Text is UTF-16 code units throughout.
- **Compatibility.** `ClaimEvidence`, `CompatibilityAuthority`,
  `CompatibilityRuns`: claims, evidence, reviews, quarantine, one resolver.
- **Sessions and the rest.** `AgentContexts`, `SessionBinding`, `Redaction`,
  `CatalogDrift`.

State that the program updates in place is a class here; each method is proved
against a function, and the properties are proved of the functions. External
parts enter as parameters: record printer and reader (`Codec`), evidence digest
and date parser (`Host` of `CompatibilityAuthority`), model selection (`Host` of
`SessionBinding`), encoder frames and errors (the actions of `StreamPump`),
clocks, new identifiers and random names.

## Where the code and its documentation disagree

The model follows the code.

- A passed claim need not have a passing record in every layer: `src/canary/claim.ts:212-228`
  (`ClaimEvidence.PassedAsDocumentedIff`, `ClaimEvidence.PassedWithSkippedLayers`).
- A timeout does not always yield an error frame: `src/routes/stream-pump.ts:33-52`
  (`StreamPump.QuietTimeoutRun`, `StreamPump.TimeoutChunkInRunIff`).
- "Escaping" links are said to fail closed; only absolute ones do:
  `src/installer/acquire.ts:467-501` (`TreeDigest.RefusedIff`, `TreeDigest.EscapingLinkAccepted`).
- An active session is said to keep its frozen target through edits and renames; it
  is refused once another profile takes the old name: `src/profiles/resolve-route.ts:80-85`
  (`SessionBinding.ReusedNameStops`).
- Claim records are said never to be rewritten; a claim filed under a key that is
  not its own can replace another document: `src/canary/artifact.ts:122-152`
  (`ClaimEvidence.HistoryKeptIff`).
- A "circular" marker does not mean a cycle, only an object met again:
  `src/observability/redaction.ts:3-10` (`Redaction.NoMarksIff`).
- Quarantine is said to make the exact claim fail closed; the lookup by model skips
  it when there is no claim: `src/compatibility/registry.ts:141-144`
  (`CompatibilityAuthority.ModelQuarantineHolds`).

## Model

| member | source | states |
|---|---|---|
| CredentialFiles.CommitCrashExact | src/credentials/store.ts:96-127 | A commit cut off after any number of its file effects and then recovered reads as the new record once the active write is through, and as the old record before, for every start outside the hazard |
| CredentialFiles.CommitAtomicIff | src/credentials/store.ts:116-127 | Old record or new record after every crash and recovery, if and only if the state is not the hazard: an active file that does not parse beside a backup that does |
| CredentialFiles.HazardArises | src/credentials/store.ts:116-127 | A commit cut off at `k` leaves the hazard behind exactly when the new text is in place, cannot be read back, and there was a record before |
| CredentialFiles.HazardLosesRecord | src/credentials/store.ts:118-119 | After one unreadable commit, a commit that dies after copying the active text over the backup loses the last readable record |
| CredentialFiles.HazardExists | src/credentials/store.ts:116-127 | The hazard and that loss on concrete values: a reader that accepts one text, one good record, one that cannot be read back |
| CredentialFiles.RunAvoidsHazard | src/credentials/store.ts:58-127 | Operations that commit only records that can be read back never lead into the hazard, wherever they are cut off |
| CredentialFiles.RecoverPreservesRead | src/credentials/store.ts:96-114 | Recovery, complete or cut off anywhere, never changes what a reader is given |
| CredentialFiles.RecoverNormalises | src/credentials/store.ts:96-114 | A full recovery leaves one readable active file with the record read before, or no record file at all |
| CredentialFiles.RecoverIdempotent | src/credentials/store.ts:96-114 | Recovering twice is recovering once, and no temporary file is left |
| CredentialFiles.PurgeCrash | src/credentials/store.ts:70-79 | A purge that dies between its two removals brings a leftover backup back to life; one step further nothing is readable |
| CredentialFiles.CommitSurvivesRecoveryIff | src/credentials/store.ts:87-114 | Recovery takes no lock: beside a commit, with its two reads anywhere in the commit and its repair after it, it leaves the new record exactly if the active file it read was readable, the old one or already the new one |
| CredentialFiles.StaleRecoveryIff | src/credentials/store.ts:96-114 | A recovery that read before the commit leaves the new record exactly if the active file parsed, and otherwise takes a reader back to exactly what was readable before |
| CredentialFiles.RecoveryRevivesPurgedIff | src/credentials/store.ts:70-114 | Beside a purge it brings a record back exactly if it read a readable backup after an active file that was unreadable or already gone |
| CredentialFiles.StepKeepsChained | src/credentials/store.ts:58-127 | One operation, cut off anywhere, keeps the two files on the same record or on consecutive generations |
| CredentialFiles.RunKeepsChained | src/credentials/store.ts:58-127 | When both files parse they hold the same record or the active one is the next generation, over every run of commits, recoveries and purges with crashes |
| CredentialFiles.RunMonotone | src/credentials/store.ts:58-127 | If no operation is a purge and every committed record can be read back, the readable generation never falls, rises by at most one a step, and a record that keeps its generation is unchanged, crashes included |
| CredentialFiles.AcceptedIff | src/credentials/store.ts:58-68 | A commit is accepted exactly for a record of the handle and the next generation, the lock free, and either nothing readable against generation 0 or the expected generation readable; each error has its exact condition |
| CredentialFiles.FirstCommit | src/credentials/store.ts:58-68 | A first record that can be read back is committed on a handle without files, is read back, and is all that is there |
| CredentialFiles.CommittedIsRead | src/credentials/store.ts:58-68 | An accepted commit of a record that can be read back is what every later reader gets |
| CredentialFiles.RecoverQuarantines | src/credentials/store.ts:96-114 | A recovery that finds nothing readable moves the text of each file to quarantine; any other puts nothing there |
| CredentialStore.Store.Commit | src/credentials/store.ts:58-68 | Returns the record exactly when it is of the handle and the next generation, the lock is free and the expected generation, or nothing against 0, is held; then it is what is read. Refusals have no effect |
| CredentialStore.Store.Replace | src/credentials/store.ts:116-127 | Backup write, active write, read-back, removal of the backup; the backup stays when the read-back fails |
| CredentialStore.Store.ReadRecord | src/credentials/store.ts:129-131 | The active record, else the backup's |
| CredentialStore.Store.QuarantineIfPresent | src/credentials/store.ts:143-151 | A present file is copied to quarantine and then removed; an absent one has no effect |
| CredentialStore.Store.RecoverHandle | src/credentials/store.ts:96-114 | Performs exactly the recovery effects and returns what was readable before |
| CredentialStore.Store.RecoverAll | src/credentials/store.ts:81-90 | Every handle with an active or backup file ends recovered; every other handle, temporary files included, is left alone |
| CredentialStore.Store.Purge | src/credentials/store.ts:70-79 | Refused without an effect under a foreign lock, else the purge effects and nothing left of the handle |
| RefreshProtocol.InitInv | src/credentials/store.ts:58-68 | A handle with one readable record and nobody at work satisfies the protocol invariant |
| RefreshProtocol.RunKeepsInv | src/credentials/broker.ts:146-222 | The protocol invariant over every interleaving of refreshers, file effects, purges, binds and deaths of processes |
| RefreshProtocol.InstalledOnce | src/credentials/broker.ts:209-222 | No generation is installed twice and each installation raises it by exactly one, over every run |
| RefreshProtocol.PurgeIsFinal | src/credentials/broker.ts:160-172 | After a completed purge no refresh in flight installs anything, both files stay away, and no bind still open returns a credential |
| RefreshProtocol.BindYieldsPrepared | src/credentials/broker.ts:142-150 | A bind that succeeds yields the very record that was prepared under that generation, whatever happened in between |
| RefreshProtocol.ReadersSeeInstalled | src/credentials/broker.ts:146-150 | A reader without the lock is handed installed records only, in the middle of a commit too |
| RefreshProtocol.OneFlightPerBroker | src/credentials/broker.ts:152-158 | Two calls under way in one broker are the same call, and the broker's map names it |
| RefreshProtocol.RunKeepsAvailable | src/credentials/store.ts:116-127 | If the tokens that come in can be printed and read back, the active file itself holds the newest record at every moment until a purge begins, over every interleaving of refreshers, purges, binds and deaths |
| RefreshProtocol.StaysAvailable | src/credentials/store.ts:116-127 | The same from an idle handle, with that condition on the tokens as the only one |
| RefreshProtocol.InstalledCarriesTokens | src/credentials/broker.ts:209-222 | Over every run from an idle handle each installed record is of the handle, one generation on, and carries the tokens of an exchange of the run |
| RefreshProtocol.CommitSettles | src/credentials/broker.ts:209-214 | A commit that ends frees the lock and settles its refresh with the newest record, or with none if that could not be read back |
| RefreshProgress.RefreshInstalls | src/credentials/broker.ts:209-222 | A refresh that nobody disturbs installs the record with the new tokens and leaves everything else as it was, whatever calls stand open |
| RefreshProgress.FailedRefreshLeavesNoTrace | src/credentials/broker.ts:209-211 | A refresh that finds no record or gets no tokens leaves the state as it was |
| RefreshProgress.LoserGetsWinner | src/credentials/broker.ts:215-220 | A refresher that comes second to the lock is handed the newer record and writes nothing |
| RefreshProgress.LockedOut | src/credentials/store.ts:58-68 | While the lock is held a commit fails at once and changes nothing else |
| RefreshProgress.BindsIff | src/credentials/broker.ts:146-150 | A bind yields the record that is held if that has the prepared generation, and is refused otherwise |
| RefreshProgress.PurgeRuns | src/credentials/store.ts:70-79 | A purge that finds the lock free takes both files away and touches no call or bind |
| RefreshProgress.DeathBlocksNobody | src/credentials/store.ts:58-68 | After a process died anywhere in a commit, the next refresh of another process installs the successor of the newest record |
| RefreshProgress.DeathSparesOthers | src/credentials/broker.ts:152-158 | A death takes the calls of its own process only, and the lock only if one of them held it |
| StreamLifecycle.Lifecycle.constructor | src/routes/stream-lifecycle.ts:119-125 | Cancelled at once for a client that is gone, and the setup timer set in either case |
| StreamLifecycle.Lifecycle.TerminateWith | src/routes/stream-lifecycle.ts:110-115 | The first terminal kind wins, clears both timers and aborts the signal |
| StreamLifecycle.Lifecycle.OnEvent | src/routes/stream-lifecycle.ts:136-140 | Counts the event and clears both timers |
| StreamLifecycle.Lifecycle.OnFrame | src/routes/stream-lifecycle.ts:141-141 | Counts the frame and touches no timer |
| StreamLifecycle.Lifecycle.OnEventDone | src/routes/stream-lifecycle.ts:127-130 | Arms the idle timer unless the stream is over or the variable still holds a timer |
| StreamLifecycle.Lifecycle.FinishWith | src/routes/stream-lifecycle.ts:144-158 | Once only: timers, listener, terminal kind and signal; a clean end outranks a cancellation |
| StreamLifecycle.Lifecycle.OnSetupTimer | src/routes/stream-lifecycle.ts:125-125 | A pending setup timer ends the stream as a setup timeout |
| StreamLifecycle.Lifecycle.OnIdleTimer | src/routes/stream-lifecycle.ts:127-130 | A pending idle timer ends the stream as an idle timeout |
| StreamLifecycle.Lifecycle.OnClientAbort | src/routes/stream-lifecycle.ts:117-124 | The listener fires at most once and cancels |
| StreamLifecycle.FinishIsFinal | src/routes/stream-lifecycle.ts:144-158 | After `finish` no timer is armed, no listener attached, and neither timers, aborts nor a second `finish` change anything |
| StreamLifecycle.RunRecords | src/routes/stream-lifecycle.ts:90-170 | Over every run of callbacks in any order, counters, finish flag, listener, merged signal and both timers are what the callbacks say |
| StreamLifecycle.TerminalIff | src/routes/stream-lifecycle.ts:110-158 | Over every run the first callback that ends the stream gives the terminal kind, and it stays but for a cancellation that a first clean finish turns into a completion |
| StreamPump.RunKeepsInv | src/routes/stream-pump.ts:45-82 | Order, counting and termination invariant of the pump over every interleaving |
| StreamPump.YieldsPrefix | src/routes/stream-pump.ts:45-82 | What is yielded is a prefix of the encoder's frames in order, then at most one error or timeout chunk |
| StreamPump.NothingHeldBack | src/routes/stream-pump.ts:49-61 | Whenever the pump waits on a live stream, and whenever it completes, every encoded frame has been yielded |
| StreamPump.SilentAfterCancel | src/routes/stream-pump.ts:50-57 | Nothing is yielded after a cancellation |
| StreamPump.TimeoutChunkIff | src/routes/stream-pump.ts:70-76 | A timeout chunk appears exactly when something throws after a timeout, with the category of the timer |
| StreamPump.ErrorChunkIff | src/routes/stream-pump.ts:70-77 | An error chunk appears exactly when something throws while nothing had ended the stream |
| StreamPump.QuietTimeout | src/routes/stream-pump.ts:33-52 | Against the header comment: a timeout answered by an ordinary event or end yields no chunk and is still recorded as a timeout |
| StreamPump.QuietTimeoutRun | src/routes/stream-pump.ts:33-52 | Such a run from the start: pulled, timed out, answered by an event; nothing comes out |
| StreamPump.TimeoutChunkInRunIff | src/routes/stream-pump.ts:70-76 | Over every run a timeout chunk comes out exactly when something throws in the run after the timeout |
| StreamPump.FinallyExactlyOnce | src/routes/stream-pump.ts:78-81 | The finally block runs at most once, only at the end; then no timer or listener is left and later actions change nothing |
| StreamPump.EndedIffFinally | src/routes/stream-pump.ts:45-81 | Over every run: if the consumer pulled first, the pump has ended exactly when the finally block has run, once; if it closed first, the block never runs |
| StreamPump.PulledFirst | src/routes/stream-pump.ts:78-81 | For a consumer that starts by pulling, ended and finished once are the same thing |
| StreamPump.StartedEndsWithFinally | src/routes/stream-pump.ts:78-81 | Every step that ends a pump runs the finally block if and only if the pump had been started |
| StreamPump.ClosedBeforeStart | src/routes/stream-pump.ts:45-48 | A generator closed before its first step never runs the finally block and leaves timer and listener behind |
| StreamPump.RecordedCompleted | src/routes/stream-pump.ts:62-81 | Which step records which kind: completed exactly for a hook that succeeds on a drained stream, every other ending the terminal kind or an error |
| StreamPump.CompletedIff | src/routes/stream-pump.ts:62-81 | Over every run: completed is recorded if and only if the upstream ended cleanly with nothing terminal, and then the completion hook succeeded with no timer going off in between |
| StreamPump.TimerDiscipline | src/routes/stream-lifecycle.ts:105-143 | While waiting on a live stream exactly one timer is armed, setup before the first event and idle after it; none while suspended at a data chunk |
| StreamPump.TimerGaps | src/routes/stream-lifecycle.ts:119-125 | Where the discipline stops: a client gone at creation leaves the setup timer armed, and a timer can fire while the error chunk waits |
| StreamProgress.WholeStream | src/routes/stream-pump.ts:45-82 | A stream that nothing disturbs yields every frame of every event in order and nothing else, and is recorded as completed with its counts |
| StreamProgress.EventDelivers | src/routes/stream-pump.ts:49-61 | On a live stream a consumer that keeps asking gets all frames of an event; then the setup timer is gone and the idle timer armed |
| StreamProgress.FaultReports | src/routes/stream-pump.ts:53-77 | A frame that cannot be formatted: the frames before it are yielded, then its error |
| StreamProgress.ErrorsReport | src/routes/stream-pump.ts:65-77 | An error of the encoder, the upstream, its end or the completion hook is reported by one chunk, or by none after a cancellation |
| StreamProgress.StopEnds | src/routes/stream-pump.ts:45-82 | A consumer that closes at a data chunk ends the stream once, without a chunk, under the kind recorded so far or as an error |
| StreamProgress.FailReports | src/routes/stream-pump.ts:70-77 | An error thrown in by the consumer is reported |
| StreamProgress.LastChunkEnds | src/routes/stream-pump.ts:70-81 | After the last chunk whatever the consumer does ends the stream once |
| ControlPlaneInvariant.ReplaceMembershipsResult | src/control-plane/repository.ts:186-195 | Succeeds exactly for distinct existing accounts of the provider; then the pool has exactly those rows in order and no other pool's rows changed |
| ControlPlaneInvariant.MutateKeepsRel | src/control-plane/store.ts:66-290 | Every accepted mutation keeps the relational invariant: references, provider of members and of a profile's pool, unique names, health rows and cooldowns |
| ControlPlaneInvariant.PoolReadsBack | src/control-plane/repository.ts:283-287 | A pool that was given accounts reads back exactly those, in that order |
| ControlPlaneInvariant.MembersAreRows | src/control-plane/repository.ts:283-287 | Under the invariant, reading a pool in pin order gives its stored rows |
| ControlPlaneRuns.WorkNewer | src/control-plane/repository.ts:276-281 | Every accepted mutation raises the version of one row or adds a row, and lowers none |
| ControlPlaneRuns.PublishSucceeds | src/control-plane/repository.ts:240-251 | After an accepted change the unique content hash never collides; the next revision number and the tables as they are get published |
| ControlPlaneRuns.RunKeepsInv | src/control-plane/store.ts:308-406 | Over every run of accepted and rejected calls: the relational invariant, consecutive revisions, last snapshot equal to the tables up to later route outcomes, and failure counters equal to the trailing run of failures |
| ControlPlaneRuns.NeverStorageFailure | src/control-plane/store.ts:392-406 | No mutation in any run fails because its policy could not be stored |
| ControlPlaneFrames.MutateFrame | src/control-plane/store.ts:66-344 | An accepted mutation changes its own row and what hangs on it, raises that row's version by exactly one, keeps its creation time, and besides only adds a policy revision |
| ControlPlaneFrames.VersionsRise | src/control-plane/repository.ts:53-66 | No run removes a row, lowers its version or changes its creation time |
| ControlPlaneFrames.NoLostUpdate | src/control-plane/repository.ts:276-281 | Of two updates made against the same version of a row at most one is ever accepted, whatever happens in between |
| ControlPlaneRows.MutateRow | src/control-plane/store.ts:66-344 | Every accepted mutation gives its row each field the request names, trimmed where it is a name, and leaves it the others; a pause reason stands only while paused, a success ends the cooldown |
| ControlPlaneRows.AcceptedIff | src/control-plane/store.ts:66-344 | After any run a mutation is accepted if and only if versions, references, names, roles, members and secrets of the request meet the stated conditions on the tables |
| ControlPlaneRows.RefusedExactly | src/control-plane/store.ts:364-390 | After any run a refused mutation gets the error of the first thing that is wrong: missing row, other version, missing reference, the request itself, a clash, the first bad member |
| ControlPlaneRows.PublishIff | src/control-plane/repository.ts:240-251 | From any tables: content that was published before is refused, any other is stored under a revision above all stored ones |
| ControlPlaneRows.SortByPinSorts | src/control-plane/repository.ts:283-287 | Reading by pin order rearranges the rows and nothing else |
| ControlPlaneRows.SpaceIff | src/control-plane/store.ts:441-445 | What counts as white space when trimming: the white space and line terminators of ECMAScript, by code point |
| ControlPlaneRows.TrimTakesBlanks | src/control-plane/store.ts:441-445 | Trimming takes nothing but white space, off the two ends |
| ControlPlaneRows.TrimTakesAll | src/control-plane/store.ts:441-445 | ... and leaves none there |
| ControlPlaneStore.Store.RunWork | src/control-plane/store.ts:66-344 | The statements of an operation change the tables as specified, or throw where it does |
| ControlPlaneStore.Store.AssertProfileRefs | src/control-plane/store.ts:408-416 | Accepts exactly a provider, a pool, or a pool of that provider, all existing; refuses in the order of the code |
| ControlPlaneStore.Store.ReplaceMembers | src/control-plane/repository.ts:186-195 | The delete-then-insert loop, throwing midway exactly where the specification does |
| ControlPlaneStore.Store.CompilePolicy | src/control-plane/store.ts:392-406 | Next revision after the largest stored, refused when the same content was published before |
| ControlPlaneStore.Store.Transact | src/control-plane/store.ts:364-390 | Version check, work, policy and audit in one transaction; after any error, midway through the memberships too, all tables are as before and the audit log has one rejected entry |
| CanonicalJson.EntriesOf | src/installer/signing.ts:44-46 | The printed entries of an object are its defined fields, sorted by code unit, without repetition |
| CanonicalJson.Unambiguous | src/installer/signing.ts:37-48 | From any text at most one meaning can be read, and where it ends is determined: the argument behind injectivity, with any continuation |
| CanonicalJson.MeaningPrints | src/installer/signing.ts:37-48 | Values with the same meaning print alike, whatever the insertion order and the undefined fields |
| CanonicalJson.CanonicalIff | src/installer/signing.ts:37-48 | Equal text if and only if equal meaning (sections 3.2.1 and 3.2.3 of RFC 8785) |
| CanonicalJson.QuoteReadsBack | src/installer/signing.ts:39-39 | A reader undoes the string escapes of section 7 of RFC 8259, lone surrogates included |
| CanonicalJson.DigitsReadBack | src/installer/signing.ts:41-41 | The printed digits denote the number, without a leading zero |
| CanonicalJson.EscapeForm | src/installer/signing.ts:39-39 | A unit stands for itself exactly when it may, takes the short escape where there is one, and lower-case hexadecimal otherwise |
| CanonicalJson.PointsPrint | src/installer/signing.ts:39-39 | Looking at both neighbours of a unit finds the surrogate pairs that a scan by code points finds |
| CodeUnits.LessIff | src/installer/signing.ts:44-46 | One text is before another exactly if it ends, or has the smaller unit, where they part |
| CanonicalReader.CanonicalReadsBack | src/installer/signing.ts:37-48 | A strict reader of the compact layout gets from every canonical text, whatever follows it, a value of the same meaning with all keys in ascending order, and stops where the value ends |
| TreeDigest.TreeFileDigests | src/installer/acquire.ts:482-517 | The recursive loop over sorted names gives the specified walk, or its first refusal |
| TreeDigest.TreeDigestExcluding | src/installer/acquire.ts:473-480 | Feeds exactly the specified byte stream to the hash |
| TreeDigest.DirExact | src/installer/acquire.ts:482-517 | A walk that succeeds lists exactly the visible leaves, once each, in the order of the components; one that fails met something refused |
| TreeDigest.StreamInjective | src/installer/acquire.ts:473-480 | The byte stream determines the list of paths, digests and link targets |
| TreeDigest.StreamReads | src/installer/acquire.ts:473-480 | A reader that ends paths and digests at zeros, names at slashes and knows links by their prefix gets the list back from its stream |
| TreeDigest.StreamIff | src/installer/acquire.ts:473-521 | Equal streams if and only if the trees have the same paths with the same digests and targets, up to empty directories and excluded entries, for any order of `readdir` |
| TreeDigest.RefusedIff | src/installer/acquire.ts:496-513 | A tree is refused exactly when it shows an absolute link or a special file, and with the error of the first of these in the order of the walk |
| TreeDigest.RefusalIff | src/installer/acquire.ts:496-513 | A link is refused exactly for a leading slash or a drive letter with a colon, any other entry exactly if it is special |
| TreeDigest.EscapingLinkAccepted | src/installer/acquire.ts:496-503 | A tree holding a relative link that climbs out of it is accepted and digested |
| ClaimEvidence.BuildClaimKey | src/canary/claim.ts:159-179 | The loop over the parts refuses exactly the empty part and the part with a separator |
| ClaimEvidence.ClaimKeyReads | src/canary/claim.ts:159-179 | There is a key exactly if version, identity and feature are non-empty and free of the separator, and it is read back field by field |
| ClaimEvidence.ClaimKeyInjective | src/canary/claim.ts:159-179 | Two execution paths or features never share a claim key; only the model family is left out |
| ClaimEvidence.LayerStatuses | src/canary/claim.ts:192-210 | Grouping the records by layer in a map gives the status of each layer |
| ClaimEvidence.StatusFromLayers | src/canary/claim.ts:220-228 | The status of a claim is a function of its three layer statuses |
| ClaimEvidence.LayersAre | src/canary/claim.ts:192-210 | What the status of each layer says about the records of that layer |
| ClaimEvidence.PassedAsDocumentedIff | src/canary/claim.ts:212-228 | A passed claim meets the documented rule, a passing record in every required layer, exactly when no layer stands at not-run |
| ClaimEvidence.PassedWithSkippedLayers | src/canary/claim.ts:212-228 | A claim that passes although its live layer was only skipped |
| ClaimEvidence.AppendAllGrows | src/canary/claim.ts:236-258 | Appending keeps the old records as a prefix, never introduces a duplicate observation, and loses no observation |
| ClaimEvidence.AppendAllPicks | src/canary/claim.ts:236-258 | What is added are observations of the run, in their order and under its reference, and nothing else |
| ClaimEvidence.SameObservationIff | src/canary/claim.ts:248-258 | Two records are the same observation exactly if they differ in nothing but key and feature |
| ClaimEvidence.MalformedIff | src/canary/claim.ts:303-335 | A stored document is refused exactly if it or one of its records lacks a text it must have |
| ClaimEvidence.ClaimEvidenceStore.AppendRunInPlace | src/canary/artifact.ts:141-152 | The nested loops file a run as specified; an error leaves what was written before it |
| ClaimEvidence.AppendRunKeeps | src/canary/artifact.ts:141-160 | Whatever is filed, documents stay under their own key and free of duplicate observations |
| ClaimEvidence.AppendRunExtends | src/canary/artifact.ts:141-152 | Filing well-keyed claims only extends every document, and every filed observation is found again |
| ClaimEvidence.HistoryKeptIff | src/canary/artifact.ts:141-160 | Filing a claim keeps every history of every proper store, and of every store that runs can reach, if and only if the claim carries the key of its identity and feature; otherwise it writes over another document |
| ClaimEvidence.AppendRunTwice | src/canary/artifact.ts:141-152 | Filing the same run again changes no document, also when the run stopped at an error |
| CompatibilityAuthority.LabelSummarises | src/compatibility/effective.ts:96-208 | The label, computed apart from the dimensions, is the same function of trust, health, freshness and quarantine for every input |
| CompatibilityAuthority.DimensionsAre | src/compatibility/effective.ts:118-208 | Each part of an answer from the input alone: health and layers from the records, trust and its reason from the deciding review, which review that is, and which quarantine |
| CompatibilityAuthority.LatestDecisionIs | src/compatibility/review.ts:14-20 | The deciding review is the first of those with the highest revision, and there is one as soon as there is a review |
| CompatibilityAuthority.LatestQuarantineIs | src/compatibility/quarantine.ts:14-27 | The quarantine in force is the first of the highest revision among those not lifted, and there is none exactly if all are lifted |
| CompatibilityAuthority.MaxBounds | src/compatibility/review.ts:44-46 | A new revision is above every one that is there |
| CompatibilityAuthority.TrustedIff | src/compatibility/effective.ts:96-208 | Trusted if and only if reviewed, healthy, fresh and not quarantined |
| CompatibilityAuthority.RequiredIff | src/compatibility/effective.ts:67-93 | A required feature gets through exactly by trust, by the quarantine bypass, or by an override of unquarantined evidence that passed and is not rejected or outdated by its decision |
| CompatibilityAuthority.EnforcedIff | src/compatibility/effective.ts:67-93 | For every context the answer by its own fields: allowed, bypassed, overridden or blocked exactly under the documented conditions |
| CompatibilityAuthority.ModelEnforcedIff | src/compatibility/registry.ts:126-148 | The same for the lookup by model, with and without a claim and with a broken seed |
| CompatibilityAuthority.LatestFixtureBounds | src/compatibility/freshness.ts:31-37 | The fixture revision reported is that of an observation no other of which is later |
| CompatibilityAuthority.LatestFixtureIsOne | src/compatibility/freshness.ts:31-37 | ... and one that is there whenever an observation has a fixture revision |
| CompatibilityAuthority.LatestCheckedIsOne | src/compatibility/freshness.ts:24-29 | The time reported is that of an observation, or none is there |
| CompatibilityAuthority.StaleIff | src/compatibility/freshness.ts:44-90 | Fresh if and only if no dependency drifted; stale with a reason if and only if that is the first one that did |
| CompatibilityAuthority.LatestCheckedBounds | src/compatibility/freshness.ts:24-29 | The reduction finds a latest observation time |
| CompatibilityAuthority.StaysTooOld | src/compatibility/freshness.ts:52-57 | A claim too old stays too old without new evidence, whatever is decided |
| CompatibilityAuthority.ModelQuarantineHolds | src/compatibility/registry.ts:126-148 | Looked up by model, an active quarantine is passed over exactly when there is no claim, the seed is not broken and the context overrides; looked up by claim key it always blocks |
| CompatibilityRuns.QuarantinedIff | src/compatibility/quarantine.ts:14-32 | Over every run a claim is quarantined exactly while quarantines outnumber lifts |
| CompatibilityRuns.LiftPops | src/compatibility/stores.ts:250-275 | A lift takes off the newest active quarantine and no other, as from a stack |
| CompatibilityRuns.LiftMarks | src/compatibility/stores.ts:250-275 | A lift is entered in the newest quarantine that is not lifted and nowhere else, and fails exactly without one |
| CompatibilityRuns.DecisionsAre | src/compatibility/stores.ts:174-184 | Over every run the stored decisions are those that were made, field by field, numbered from one, up to a first one the schema refuses |
| CompatibilityRuns.QuarantinesAre | src/compatibility/stores.ts:237-275 | The same for quarantines, whatever has been lifted of them |
| CompatibilityRuns.InForceIs | src/compatibility/stores.ts:237-275 | Over every run the quarantines in force are the stack of the raises and lifts of the run, until one is stored that cannot be read |
| CompatibilityRuns.LastDecisionDecides | src/compatibility/review.ts:14-46 | Decisions are numbered from one without a gap, so the deciding one is the last made |
| CompatibilityRuns.RunKeepsInv | src/compatibility/stores.ts:174-275 | Numbering, stack and distinctness invariant over every run of observations, decisions, quarantines and lifts |
| CompatibilityRuns.TrustedHistoryIff | src/compatibility/effective.ts:96-116 | After any run from nothing a claim is trusted if and only if its documents are readable, lifts equal quarantines, outcomes are good, nothing is stale, and the last decision of the run promotes exactly the records there are |
| CompatibilityRuns.TrustNeedsNewPromotion | src/compatibility/review.ts:36-41 | Any new distinct observation ends trust until the last decision promotes exactly the records then there |
| CompatibilityRuns.FailedForEver | src/compatibility/effective.ts:96-103 | A failed observation ends trust for ever and keeps a required feature blocked unless quarantines are bypassed |
| CompatibilityRuns.ReadableAfter | src/compatibility/stores.ts:40-51 | A decision is stored unchecked and read checked: the document reads back exactly when the new decision meets the schema |
| CompatibilityRuns.SchemaIff | src/compatibility/stores.ts:40-64 | A decision or quarantine meets its schema exactly with a positive revision and no text missing that it must have |
| CompatibilityRuns.UnreadableForEver | src/compatibility/stores.ts:124-138 | A document that fails its schema is never read or changed again |
| CompatibilityRuns.FilingObserves | src/canary/artifact.ts:141-152 | Filing a well-keyed claim in the store is the observation step on the document it names and touches no other |
| CompatibilityRuns.ReviewDecisionStore.Add | src/compatibility/stores.ts:174-184 | Appends the decision under the next revision to its own document only, or fails without an effect |
| CompatibilityRuns.QuarantineStore.Raise | src/compatibility/stores.ts:237-247 | Appends an active record under the next revision to its own document only, or fails without an effect |
| CompatibilityRuns.QuarantineStore.Lift | src/compatibility/stores.ts:250-275 | Marks the newest active record lifted, or fails without an effect |
| AgentContexts.Registry.Record | src/profiles/agent-contexts.ts:68-77 | Sets the entry under the joined key, keeping its place in the map, or does nothing |
| AgentContexts.Registry.Resolve | src/profiles/agent-contexts.ts:80-82 | The entry under the key if its lease is active; a dead entry is deleted |
| AgentContexts.Registry.ContextsForSession | src/profiles/agent-contexts.ts:90-102 | The loop that deletes while iterating returns the live entries under the prefix in order and leaves all but the dead ones |
| AgentContexts.Registry.MainContext | src/profiles/agent-contexts.ts:85-87 | The first live main agent under the prefix |
| AgentContexts.Registry.DropLease | src/profiles/agent-contexts.ts:105-109 | Removes exactly the entries of the lease |
| AgentContexts.RegistryRefinesFromEmpty | src/profiles/agent-contexts.ts:54-122 | Over every run the string-keyed, lazily cleaned registry shows what a list keyed by lease, session and agent that is never cleaned shows |
| AgentContexts.ShowsOwnContextsOnly | src/profiles/resolve-route.ts:544-557 | Whatever is shown or inherited was recorded before in the asking lease and session, for the named agent or a main one, and its lease is active |
| AgentContexts.AnswersExactly | src/profiles/agent-contexts.ts:54-122 | Over every run each answer is exactly what was recorded under an open lease before it and neither dropped nor recorded anew since: nothing held is kept back, nothing else is shown |
| AgentContexts.SessionsCollideIff | src/profiles/agent-contexts.ts:54-56 | Two session ids of a lease can be mixed up by some agent id exactly when one continues the other after a separator |
| SessionBinding.ServesFrozenIff | src/profiles/resolve-route.ts:80-172 | Against any live policy a session is served its frozen profile, pool and provider, and is served if and only if these can be served and no other live profile has taken the name |
| SessionBinding.OverlayIs | src/profiles/resolve-route.ts:898-951 | What a session sees is the live policy with its own profile, pool and provider in place of those with their ids, and everything else as it is |
| SessionBinding.NonInterference | src/profiles/resolve-route.ts:898-951 | Two live policies that leave the name alone give the same answer, errors included |
| SessionBinding.ReusedNameStops | src/profiles/activate.ts:57-80 | Renaming the profile is harmless; giving its old name to another one stops every session of it |
| SessionBinding.IssuedWellFormedIff | src/runtime/gateway-server.ts:284-312 | A session is issued with pool and provider that belong together unless the pool names a provider the policy does not have |
| SessionBinding.IssuedFromTables | src/runtime/gateway-server.ts:284-312 | Tables with intact references, as the control plane keeps them, only issue well-formed sessions |
| SessionBinding.IssuedSessionsServe | src/profiles/resolve-route.ts:80-172 | Over every run of the control plane a session issued from the last published policy is served at once if its target can be served, and later that target or nothing |
| SessionBinding.ServedAsIssuedIff | src/profiles/resolve-route.ts:80-172 | With no clash of names a session is served if and only if the issued profile is for the harness, its launch policy starts, and selection and capability succeed on it; the profile served is the issued one with its pool |
| SessionBinding.RefusedAsIssued | src/profiles/resolve-route.ts:80-172 | Which error such a session meets: harness, launch policy, selection and capability, in that order |
| SessionBinding.IssuedBlank | src/runtime/gateway-server.ts:284-312 | What is kept at issue where no pool or provider is found: blanks, filled first, and a provider that is not enabled |
| SessionBinding.SessionKeepsItsTarget | src/runtime/gateway-server.ts:284-312 | From issue on, through any edits, a served request gets the model roles, pool and provider of the policy at issue |
| Redaction.Redactor.Run | src/observability/redaction.ts:3-17 | The recursion with the shared set terminates on every finite graph and computes the specified output |
| Redaction.SensitiveIff | src/observability/redaction.ts:1-1 | A key is sensitive exactly if a word of the pattern stands in it somewhere, in any case |
| Redaction.ReachableExactlyOnce | src/observability/redaction.ts:3-17 | The objects expanded are exactly those reachable other than through sensitive keys, each once |
| Redaction.OutputClean | src/observability/redaction.ts:13-15 | Nothing but the marker stands under a sensitive key, at any depth |
| Redaction.SecretsDoNotShow | src/observability/redaction.ts:13-15 | Two graphs that differ only under sensitive keys give the same output |
| Redaction.TreesKept | src/observability/redaction.ts:3-17 | Without sharing outside sensitive keys, everything outside them comes out as it is |
| Redaction.MarksExact | src/observability/redaction.ts:3-17 | Circular markers count the mentions of reachable objects outside sensitive keys beyond the first, the caller's mention included |
| Redaction.NoMarksIff | src/observability/redaction.ts:3-17 | An output has no circular marker if and only if every reachable object is mentioned just once outside sensitive keys |
| Redaction.SharedIsMarkedCircular | src/observability/redaction.ts:5-10 | An object met twice is marked circular although there is no cycle |
| CatalogDrift.MetadataChanges | src/registry/catalog-proposal.ts:184-205 | The pushes under their conditions give the listed changes in order |
| CatalogDrift.NoChangesIff | src/registry/catalog-proposal.ts:184-205 | A row counts as unchanged exactly when every declared or observed value is the reviewed one |
| CatalogDrift.ChangesIff | src/registry/catalog-proposal.ts:184-205 | Which changes are reported, on the fields of row and candidate alone: family, window, maximum output, tools and reasoning |
| CatalogDrift.ChangesInOrder | src/registry/catalog-proposal.ts:184-205 | They come in the order of the code, each kind at most once |
| CatalogDrift.IndexSnapshot | src/registry/catalog-proposal.ts:102-117 | Refuses mixed providers first and repeated paths second, and nothing else; else the index finds every candidate |
| CatalogDrift.Propose | src/registry/catalog-proposal.ts:97-182 | The loops, pushes and sorts compute the specified report |
| CatalogDrift.DriftRight | src/registry/catalog-proposal.ts:97-182 | Each list is sorted and holds exactly what it should: unchanged, changed with its changes, removed, new, and the references of matched rows |
| CatalogDrift.OrderIsImmaterial | src/registry/catalog-proposal.ts:86-96 | Reordering the snapshot or the registry changes neither the report nor the refusal |
| CatalogDrift.DriftConserves | src/registry/catalog-proposal.ts:125-156 | Unchanged, changed and removed account for every reviewed row; unchanged, changed and new for every candidate |
| CatalogDrift.LostIff | src/registry/model-registry.ts:278-285 | A candidate without a row is missing from the new ones exactly when a row of another provider has its path as logical id |
| CatalogDrift.ShadowArises | src/registry/model-registry.ts:278-280 | A snapshot whose only candidate vanishes from the report because a provider id holds a slash |
| CatalogDrift.SlashFreeNotShadowed | src/registry/model-registry.ts:278-285 | Provider ids without a slash cannot cause it |

## Left out

- CredentialFiles: file writes and removals are atomic and ordered; reordering of unsynced writes by the operating system is not modelled, and a quarantine write is one effect, so its own temporary file is not followed.
- RefreshProtocol: the lock excludes commits and purges of one handle and is freed when its owner dies; how stale lock files are recognised and removed is not modelled, nor is recovery in other processes (`CredentialFiles.CommitSurvivesRecoveryIff` and `CredentialFiles.RecoveryRevivesPurgedIff` say what it does to a commit or a purge it acts after; its removal of temporary files in use is not modelled).
- RefreshProtocol: a process that dies inside a purge is covered by `CredentialFiles.PurgeCrash`, not by the interleavings; expiry checks, login and import are left out.
- StreamPump: a transition system rather than a method, because the generator is interleaved with timers, client and consumer; encoding and formatting of frames are inputs, and durations and backpressure counts are not kept.
- ControlPlane: JSON columns are opaque text with the verdict of the secret scan; provider fields other than name, terms and enablement are one column; listing order by name is dropped (tables are maps); the content hash is equality of snapshots.
- CanonicalJson: numbers are integers (no fractions, no minus zero, no refusal of non-finite ones); values other than JSON data are not modelled.
- TreeDigest: a name that vanishes between listing and inspection is not modelled; file digests are given, as hexadecimal text.
- ClaimEvidence: documents are parsed values; text that is not JSON and unknown fields are not modelled; the environment of a record is its printed form, and timings are whole numbers.
- CompatibilityRuns: reviews, quarantines and claims are updated one operation at a time; two processes writing one document at once are not modelled.
- CompatibilityAuthority: reasons that only repeat a dimension (health and enforcement reasons) are not part of the answer.
- AgentContexts: what was resolved for an agent is one field; lease ids are never reused once retired.
- SessionBinding: intent classification, tier resolution, model selection and reasoning translation are one function of the frozen profile and the provider's name; account selection inside the pool is left out.
- Redaction: keys that JavaScript treats specially (`__proto__`) and objects other than arrays and plain records are not modelled.
- CatalogDrift: provider, source and time stamps of the report are copied through and not part of it.
- The OAuth login coordinator, HTTP routes, command line, configuration parsing, provider adapters, protocol encoders and the canary runners: plumbing around code that is modelled, or easy case tables.
- `canonicalize` in `src/control-plane/store.ts`: it sorts by locale; the code-unit order of `src/installer/signing.ts` is modelled instead.
