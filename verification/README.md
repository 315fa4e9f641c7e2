# MythLab: a verified model of its protocols

MythLab is a desktop manager for a home network. Beneath its windows run several small protocols whose correctness
depends on interleavings, failures and whole runs. This project models them in Dafny and proves what they keep.

`dafny verify dfyconfig.toml` checks everything.

## What is modelled

- **Inventory** — `Devices`, `MacAddress`, `Ipv4Text`, `DeviceRules`, `InventoryRules`, `DeviceRepository`,
  `SqliteDeviceRepository`, `StatusProvenance`, `WakeProvenance`, `Observations`: the device table as a state machine of
  saves, observations and deletions. Identity, normal forms, columns against documents, SQLite's unique indexes against the
  duplicate scan, where a stored status comes from, how the `Verified` mark of a wake configuration is earned, and how
  observations converge.
- **Live cards** — `WakeDevice`, `DeviceActivity`, `DeviceActivityInvariant`, `Synchronization`, `ActivityRuns`,
  `ActivityResults`, `ActivitySweeps`, `DeviceActivityViewModel`: status checks, wakes and inventory edits that interleave at
  their await points. What a card shows is what its own operation returned, the card generation keeps stale results out, and
  a stored `Verified` leads back to an observed wake.
- **Terminal** — `TerminalOutput`, `BoundedTerminalOutput`, `SshTerminalSession`, `TerminalSession`,
  `TerminalLifecycle`, `TerminalWindow`: a bounded byte stream, the stop-and-wait of numbered frames behind it, and the
  window's overlapping reconnect, stop and close calls.
- **Credentials** — `CredentialSave`, `CredentialSaveService`: a compensating update of two stores in which every call may
  throw before or after its effect.
- **Discovery** — `Bits`, `Ipv4Subnet`, `Discovery`, `NetworkDiscovery`, `DiscoveryProvenance`,
  `DiscoveryQuestions`, `NetworkDiscoveryService`, `DiscoveryScreen`, `DiscoveryViewModel`: 32-bit subnet arithmetic, what is
  asked and heard of each address, the shared result table under any schedule of the workers, and the sorted list that shows it.
- **SSH host identity** — `KnownHosts`, `KnownHostText`, `KnownHostsStore`, `SshSessions`, `SshConnects`,
  `SshSessionService`: connection attempts with a human review in the middle, racing over one trust file.
- **Bounded arithmetic** — `StatusCheck`, `WakeOnLan`, `WakeRouting`: fair time slices, the packet schedule, and the choice
  of an interface.

Each component has a specification (datatypes, step functions and lemmas) and, where the original updates objects in
place, a class whose methods are proved to do exactly the steps of the specification. A class method covers one
uninterrupted stretch of code; the step machines interleave those stretches freely.

## What turned out not to hold

The code is modelled as it is. Where a natural claim fails, a lemma shows the failure and another gives the condition.

- A device can be `Verified` without any wake: the first save of an id stores the mark it is given
  (`WakeProvenance.VerifiedInsertNeedsNoWake`). Exactly then, or after an earned verification, a stored device carries it
  (`WakeProvenance.VerifiedIffEarned`).
- Observations converge in every order of arrival exactly when all of them are older than what is stored or the newest of
  them report one state (`Observations.ConvergesIffNewestAgree`). `LastSeen` does not follow
  (`Observations.LastSeenDependsOnOrder`): it converges exactly when a newest arrival that counts is Online, or no Online one
  that counts says anything new (`Observations.LastSeenConvergesIff`).
- Starting a wake throws for a card whose device id was removed and came back while the old wake was still unwinding
  (`ActivityRuns.ReusedIdRefusesWake`); that is the only way (`ActivityRuns.WakeRefusedOnlyByRemovedCard`).
- Frame numbers have 32 bits: waits are released by their own acknowledgements in every run of a window up to 2^32 frames
  and no further (`TerminalSession.OwnAcksIffNoWrap`), because a very late acknowledgement then carries a number that is
  in use again (`TerminalSession.VeryLateAckReleasesTheWrongWait`).
- A rollback that asks for repair can leave a password credential without its password, a new one
  (`CredentialSave.RepairMayBreakCoherence`) or an old one (`CredentialSave.RepairMayLoseOldPassword`); which patterns of
  throwing calls do so is `CredentialSave.CoherenceLostIff`.
- A scan can find more devices than it scanned addresses when the neighbour cache spells an address in another way than the
  canonical one; for every such spelling and for no canonical one (`NetworkDiscovery.CountNeedsCanonicalSpelling`).
- A trusted host is written back when its record is removed between a session's listing and its trusting step
  (`SshSessions.RemovalIsUndone`); it stays out, unless reviewed again, exactly when no call that may still trust it is pending
  (`SshSessions.RemovalStaysIff`). And sessions agree on a key exactly when the file they start from holds no two records
  of one endpoint with different keys (`SshSessions.AgreementNeedsConflictFreeFile`).
- `KnownHostsStore` can write a record it then refuses to read, and the whole file with it: the endpoint text `nas .` keeps a
  space once its final dot is removed (`KnownHostText.SpaceBeforeDotIsNotStorable`). That happens exactly for such endpoints
  (`KnownHostText.TrustPoisonsFileIff`), and managed devices never have one (`SshSessionService.ManagedEndpointsStayReadable`).
- With too little time left, the last addresses of a status check can starve: every one of n gets its turn exactly with more
  than n - 1 milliseconds (`StatusCheck.EveryAddressGetsItsTurnIff`).

## Reading the contracts

- Everything the platform decides is a parameter: which texts are DNS names and how case folds (`HostRules`,
  `TextRules`), what the network answers, which calls throw, what the clock shows, and what other parts of the program do
  while one of them waits (the `Script`, `Reply`, `Turn` and `Meanwhile` datatypes).
- The repository, the credential save and the SSH sessions are proved for any rules that obey a few laws (`InventoryRules.Rules`,
  `CredentialSave.Rules`, `KnownHosts.IdentityRules`); the application's own rules (`Managed`, `Standard`, `Platform`) are proved
  to obey them, and the classes use those.
- In `SshSessions` the `epoch` of a session is the number of removals of its endpoint that had taken effect at its trusting
  step, so equal epochs mean that no removal came between two trusting steps.
- In `NetworkDiscovery` the network's answer, each look-up and update of the dictionary and each report is a step of its own.

## Model

| member | source | states |
|---|---|---|
| MacAddress.NormalizeIsNormal | src/MythLab.Core/Devices/MacAddress.cs:5-21 | every accepted MAC address comes out as six upper-case pairs between colons |
| MacAddress.NormalIsFixpoint | src/MythLab.Core/Devices/MacAddress.cs:5-21 | an address in that form is accepted unchanged, so normalisation is idempotent |
| MacAddress.AcceptsExactlyTheForms | src/MythLab.Core/Devices/MacAddress.cs:5-21 | accepted are exactly twelve hexadecimal digits, or twelve with one and the same separator after each pair, between white space; the result has these digits in order, in upper case |
| Text.NoCaseImpliesIgnoreCase | src/MythLab.Infrastructure/Storage/SqliteDeviceRepository.cs:35 | hostnames equal for SQLite's NOCASE are equal for the ordinal case-insensitive comparison of the duplicate scan |
| Devices.TargetsAreTheRest | src/MythLab.Core/Monitoring/StatusObservation.cs:11-14 | beside identity, labels and observations, the target of a status check leaves out the wake configuration alone, and the target of a wake its capability alone |
| Ipv4Text.ParseFormat | src/MythLab.Core/Discovery/Ipv4Subnet.cs:31-44 | parsing what formatting writes gives back every 32-bit address |
| Ipv4Text.FormatInjective | src/MythLab.Core/Discovery/Ipv4Subnet.cs:39-44 | different addresses have different texts |
| Ipv4Text.NormalizeAcceptsExactlyCanonical | src/MythLab.Core/Devices/DeviceRules.cs:48-54 | the inventory accepts exactly the texts `Format` writes, and keeps them |
| DeviceRules.ValidatedIsNormal | src/MythLab.Core/Devices/DeviceRules.cs:10-46 | whatever validation accepts satisfies every rule of a managed device, stated without reference to how it is computed |
| DeviceRules.NormalIsFixpoint | src/MythLab.Core/Devices/DeviceRules.cs:10-46 | a device that satisfies the rules is accepted unchanged |
| DeviceRules.NormalIffFixpoint | src/MythLab.Core/Devices/DeviceRules.cs:10-46 | the devices that satisfy the rules are exactly the fixpoints of validation |
| DeviceRules.NormalizeIsIdempotent | src/MythLab.Core/Devices/DeviceRules.cs:10-46 | validating a validated device changes nothing |
| DeviceRules.ValidationTidies | src/MythLab.Core/Devices/DeviceRules.cs:10-46 | a device is accepted exactly when its tidy form, trimmed and in the usual spellings, obeys the rules and its group was at most 100 characters as given; it comes out as that form |
| DeviceRules.TagsAreFirstSpellings | src/MythLab.Core/Devices/DeviceRules.cs:40-41 | the tags kept are, in order, the first spellings of the tags that are not blank |
| DeviceRules.MatchIffShareIdentity | src/MythLab.Core/Devices/DeviceRules.cs:56-65 | for devices in normal form a reason is found exactly when they share a MAC, hostname (in any case) or IPv4 address, whichever is the candidate |
| InventoryRules.ManagedIsLawful | src/MythLab.Core/Devices/DeviceRules.cs:10-65 | the laws the repository relies on hold of the rules: validation accepts exactly the normal devices and keeps identifiers, sharing an identity is mutual and covers the indexes, and neither depends on what is merely observed |
| DeviceRepository.IndexesAgreeWithDuplicateScan | src/MythLab.Infrastructure/Storage/SqliteDeviceRepository.cs:40-42 | the three unique indexes accept every row the duplicate scan let through |
| DeviceRepository.SaveKeepsInv | src/MythLab.Infrastructure/Storage/SqliteDeviceRepository.cs:70-119 | a save keeps identities unique, documents normal and columns equal to the document, and never meets an index violation |
| DeviceRepository.ObserveKeepsInv | src/MythLab.Infrastructure/Storage/SqliteDeviceRepository.cs:121-150 | so does an observation, although it rewrites only the document |
| DeviceRepository.StepKeepsInv | src/MythLab.Infrastructure/Storage/SqliteDeviceRepository.cs:70-159 | every operation, cancelled or not, keeps the table invariant |
| DeviceRepository.SavedIff | src/MythLab.Infrastructure/Storage/SqliteDeviceRepository.cs:70-119 | a save is carried out exactly when the device is valid, nobody cancels and no other stored device shares an identity with it; the refusals are told apart the same way |
| DeviceRepository.SaveStores | src/MythLab.Infrastructure/Storage/SqliteDeviceRepository.cs:76-112 | a new device is stored as validated; a new version keeps state, LastChecked and LastSeen of the old document if it is probed in the same way and is Unknown and never checked otherwise; it is Verified only if the old one was and is woken in the same way; no other row changes |
| DeviceRepository.ObservationStores | src/MythLab.Infrastructure/Storage/SqliteDeviceRepository.cs:121-150 | an observation is applied exactly when the device is still probed as the observed one was and not checked since; the document then has its state and time, LastSeen if Online, and its old configuration |
| DeviceRepository.DeletionRemoves | src/MythLab.Infrastructure/Storage/SqliteDeviceRepository.cs:152-159 | a deletion that is not cancelled removes the named row and no other |
| DeviceRepository.ReachableTablesKeepIdentity | src/MythLab.Infrastructure/Storage/SqliteDeviceRepository.cs:67-159 | every table any run reaches has unique identities, normal documents and matching columns, and its indexes never reject the next operation |
| StatusProvenance.StoredStatusWasObserved | src/MythLab.Infrastructure/Storage/SqliteDeviceRepository.cs:81-139 | in every run, a stored device of which anything is known leads back to an observation of the target stored now with that very state, time and LastSeen, or to the insert that carried them, and every operation since kept them |
| SqliteDeviceRepository.OnlyInitializedOperationsCount | src/MythLab.Infrastructure/Storage/SqliteDeviceRepository.cs:17-65 | whatever calls a process makes on a file, the table ends as the run of exactly the operations that came after an initialisation the file let through; without one, so on a newer version, every call leaves the file as it was |
| SqliteDeviceRepository.RefusedIff | src/MythLab.Infrastructure/Storage/SqliteDeviceRepository.cs:67-159 | an uninitialised repository changes nothing and refuses for that reason exactly when neither validation nor a cancellation comes first |
| SqliteDeviceRepository.Repository.ReadDevices | src/MythLab.Infrastructure/Storage/SqliteDeviceRepository.cs:161-172 | the records read are exactly the stored documents |
| SqliteDeviceRepository.Repository.FindDuplicate | src/MythLab.Infrastructure/Storage/SqliteDeviceRepository.cs:96-101 | the scan finds a reason exactly when another stored device shares an identity, and the reason names one that is shared |
| SqliteDeviceRepository.Repository.SaveAsync | src/MythLab.Infrastructure/Storage/SqliteDeviceRepository.cs:70-119 | database and outcome are those of the atomic save, of which `SavedIff` and `SaveStores` say when and what; an uninitialised repository only refuses, and a duplicate is reported with an identity that is really shared |
| SqliteDeviceRepository.Repository.ApplyObservationAsync | src/MythLab.Infrastructure/Storage/SqliteDeviceRepository.cs:121-150 | database and outcome are those of the atomic observation, an uninitialised repository only refuses, and the invariant is kept |
| SqliteDeviceRepository.Repository.DeleteAsync | src/MythLab.Infrastructure/Storage/SqliteDeviceRepository.cs:152-159 | exactly the named device goes, unless cancelled or uninitialised |
| SqliteDeviceRepository.MatchClaims | src/MythLab.Core/Devices/DeviceRules.cs:56-65 | the reason in a duplicate message names an identity the two devices share |
| WakeProvenance.VerifiedAfterSave | src/MythLab.Infrastructure/Storage/SqliteDeviceRepository.cs:78-94 | a device is Verified after a save exactly if it was inserted so, or was so before and the new version is enabled and woken in the same way |
| WakeProvenance.VerifiedAfterObservation | src/MythLab.Infrastructure/Storage/SqliteDeviceRepository.cs:129-139 | a device is Verified after an observation exactly if it was before or the observation verifies a wake of the stored configuration |
| WakeProvenance.SaveNeverRaises | src/MythLab.Infrastructure/Storage/SqliteDeviceRepository.cs:87-93 | no save raises a stored device to Verified |
| WakeProvenance.SparedStaysVerified | src/MythLab.Infrastructure/Storage/SqliteDeviceRepository.cs:78-139 | a mark once made stays, on the same configuration, until a deletion or an incompatible save |
| WakeProvenance.VerifiedIffEarned | src/MythLab.Infrastructure/Storage/SqliteDeviceRepository.cs:78-139 | over every run, Verified is carried exactly when some operation inserted it or earned it and none since took it away |
| WakeProvenance.VerifiedWasEarned | src/MythLab.Infrastructure/Storage/SqliteDeviceRepository.cs:129-139 | without Verified inserts the mark leads back to an Online observation made to verify a wake of the configuration stored now |
| WakeProvenance.VerifiedInsertNeedsNoWake | src/MythLab.Infrastructure/Storage/SqliteDeviceRepository.cs:72-94 | a first save stores a Verified device nobody woke |
| WakeProvenance.ClaimedIsNormal | src/MythLab.Core/Devices/DeviceRules.cs:10-46 | such a device exists and is valid |
| Observations.NewestArrivalWins | src/MythLab.Infrastructure/Storage/SqliteDeviceRepository.cs:129-139 | after any arrivals for an unchanged target the stored state and check time are those of the newest observation, the last of equally new ones, or unchanged if all are older |
| Observations.OrderOfArrivalDoesNotMatter | src/MythLab.Infrastructure/Storage/SqliteDeviceRepository.cs:129-139 | every reordering of observations whose newest ones agree ends in the same state and check time |
| Observations.ConvergesIffNewestAgree | src/MythLab.Infrastructure/Storage/SqliteDeviceRepository.cs:129-139 | all orders of arrival end alike exactly when every observation is older than the stored check or the newest ones report one state |
| Observations.LastSeenDependsOnOrder | src/MythLab.Infrastructure/Storage/SqliteDeviceRepository.cs:137 | an older Online observation that arrives late is lost for LastSeen |
| Observations.LastSeenConvergesIff | src/MythLab.Infrastructure/Storage/SqliteDeviceRepository.cs:129-139 | LastSeen ends alike in every order of arrival exactly when a newest arrival not older than the stored check is Online, or every Online arrival not older than it was made at the stored LastSeen |
| Observations.ClocksMoveForward | src/MythLab.Infrastructure/Storage/SqliteDeviceRepository.cs:81-139 | any operation that leaves the target unchanged moves LastChecked and LastSeen forward only and keeps LastSeen within LastChecked |
| Observations.ClocksOverTrace | src/MythLab.Infrastructure/Storage/SqliteDeviceRepository.cs:81-139 | so does any stretch of a run |
| WakeDevice.VerifiedIffWitnessed | src/MythLab.Infrastructure/WakeOnLan/WakeDeviceService.cs:9-43 | a wake ends as a verified outcome exactly when its effects show the device Offline, then the packets sent, then the device Online |
| WakeDevice.SentWakeEnds | src/MythLab.Infrastructure/WakeOnLan/WakeDeviceService.cs:19-43 | once packets are sent the result follows from the script alone: Online at the first turn that sees it, verified if it was Offline at first; the latest observation, unverified, at the deadline; cancelled or failed if the caller or a probe ends it |
| WakeDevice.OnlineIffSeen | src/MythLab.Infrastructure/WakeOnLan/WakeDeviceService.cs:25-36 | the device is reported Online exactly when some turn saw it Online and every turn before saw it otherwise |
| WakeDevice.UnsentWakeEnds | src/MythLab.Infrastructure/WakeOnLan/WakeDeviceService.cs:9-18 | a call that sends nothing ends at once and for the reason the first checks give, Online without a send if the device answered |
| WakeDevice.AtMostOneSend | src/MythLab.Infrastructure/WakeOnLan/WakeDeviceService.cs:15-18 | packets are sent at most once, and never to a device that answered the first check |
| WakeDevice.WakeAsync | src/MythLab.Infrastructure/WakeOnLan/WakeDeviceService.cs:9-43 | the loop ends with the result and the effects of `Wake`, of which `SentWakeEnds`, `OnlineIffSeen` and `UnsentWakeEnds` say what they are for every script |
| DeviceActivityInvariant.SynchronizeKeepsInv | src/MythLab.App/ViewModels/DeviceActivityViewModel.cs:24-52 | synchronising keeps cards distinct, every operation behind or on its card, and the wake registry exact |
| DeviceActivityInvariant.NextBatchKeepsInv | src/MythLab.App/ViewModels/DeviceActivityViewModel.cs:83-90 | a new batch starts at most eight checks |
| DeviceActivityInvariant.BeginWakeKeepsInv | src/MythLab.App/ViewModels/DeviceActivityViewModel.cs:128-137 | starting a wake registers it and overtakes every operation in flight on the card |
| DeviceActivityInvariant.ReturnedKeepsInv | src/MythLab.App/ViewModels/DeviceActivityViewModel.cs:99-100 | a returned observation goes on only while its generation is current |
| DeviceActivityInvariant.ResumedKeepsInv | src/MythLab.App/ViewModels/DeviceActivityViewModel.cs:113-123 | the repository's answer is shown only on a current card with the probed target |
| DeviceActivityInvariant.ShowResultKeepsInv | src/MythLab.App/ViewModels/DeviceActivityViewModel.cs:163 | the closing detail of a wake is a timely write |
| DeviceActivityInvariant.ThrewKeepsInv | src/MythLab.App/ViewModels/DeviceActivityViewModel.cs:166-179 | an exception writes only to a current card and keeps the registry exact |
| DeviceActivityInvariant.ProgressKeepsInv | src/MythLab.App/ViewModels/DeviceActivityViewModel.cs:149-154 | progress reports write only while their wake runs and is current |
| DeviceActivityInvariant.UnwindKeepsInv | src/MythLab.App/ViewModels/DeviceActivityViewModel.cs:138-143 | unwinding frees exactly the wake's own registration |
| DeviceActivityInvariant.CancelWakeKeepsInv | src/MythLab.App/ViewModels/DeviceActivityViewModel.cs:183-186 | cancelling leaves registry and cards consistent |
| Synchronization.SynchronizeShowsInventory | src/MythLab.App/ViewModels/DeviceActivityViewModel.cs:24-52 | afterwards the cards show exactly the given devices, in their given versions, and surviving cards are the same objects |
| Synchronization.SynchronizeTakesOver | src/MythLab.App/ViewModels/DeviceActivityViewModel.cs:24-52 | a card whose device keeps its wake setup goes on showing what it showed; under another setup it shows Unknown, is overtaken and its wake is asked to stop; so are cards of devices that are gone; new cards await a check; others are not touched |
| ActivityRuns.EveryRunKeepsInv | src/MythLab.App/ViewModels/DeviceActivityViewModel.cs:24-181 | cards, repository and wake service keep the joint invariant in every interleaving |
| ActivityRuns.StaleResultsNeverLand | src/MythLab.App/ViewModels/DeviceActivityViewModel.cs:91-181 | every State or Detail write happens under a current generation for a card that still has the probed target; at most eight checks run; at most one wake per card; the registry holds exactly the running wakes |
| ActivityRuns.VerifiedReflectsWake | src/MythLab.App/ViewModels/DeviceActivityViewModel.cs:158-162 | a stored Verified leads back to a wake that saw Offline, sent packets and saw Online, on the configuration stored now |
| ActivityRuns.WakeRefusedOnlyByRemovedCard | src/MythLab.App/ViewModels/DeviceActivityViewModel.cs:130-132 | registering a wake throws exactly when a wake of a removed card of the same device is still unwinding |
| ActivityRuns.ReusedIdRefusesWake | src/MythLab.App/ViewModels/DeviceActivityViewModel.cs:128-143 | a run in which that happens |
| ActivityResults.ResultLands | src/MythLab.App/ViewModels/DeviceActivityViewModel.cs:113-123 | a saved answer on a current, visible card leaves it with the saved device, the observed state and the observation's detail; in every other case no card changes |
| ActivityResults.ClosingDetailShows | src/MythLab.App/ViewModels/DeviceActivityViewModel.cs:163 | the closing detail of a wake is shown if its generation is current, and nothing else of the card changes |
| ActivityResults.FailureShows | src/MythLab.App/ViewModels/DeviceActivityViewModel.cs:103-111 | a failure shows as Unknown with its detail if current, except a check ended by the cancelled lifetime; otherwise no card changes |
| ActivityResults.ProgressShows | src/MythLab.App/ViewModels/DeviceActivityViewModel.cs:149-154 | a progress report shows its state and detail exactly while its wake runs and is current |
| ActivityResults.ReturnGoesOn | src/MythLab.App/ViewModels/DeviceActivityViewModel.cs:98-100 | what a check or a wake returned goes to the repository, unaltered, exactly if its generation is current and, for a check, its card visible |
| ActivityResults.CheckBegins | src/MythLab.App/ViewModels/DeviceActivityViewModel.cs:91-98 | a check begins exactly for a visible card that is not waking, on the device and under the generation of that moment |
| ActivityResults.WakeBegins | src/MythLab.App/ViewModels/DeviceActivityViewModel.cs:128-136 | a wake that is offered, visible and not refused marks its card, takes a new generation and is registered; otherwise nothing changes |
| ActivityResults.WakeUnwinds | src/MythLab.App/ViewModels/DeviceActivityViewModel.cs:138-143 | an ended wake takes back its mark and its own registration and leaves every other |
| ActivityResults.CancelAsks | src/MythLab.App/ViewModels/DeviceActivityViewModel.cs:183-186 | cancelling asks exactly the wake registered under the device of the card |
| ActivityResults.CommitStores | src/MythLab.App/ViewModels/DeviceActivityViewModel.cs:113-116 | the repository is given, for the device that was probed, the very observation the call of the operation returned, and what waits for the card is the document it stored |
| ActivityResults.WritesShowWhatReturned | src/MythLab.App/ViewModels/DeviceActivityViewModel.cs:98-179 | in every run, each applied result shows the state and detail that operation's own call returned before, each closing detail that of the same call, each failure Unknown, each progress report what it reports |
| ActivityResults.ShownStateWasWritten | src/MythLab.App/ViewModels/DeviceActivityViewModel.cs:91-179 | in every run, a card that shows anything but Unknown shows it by a timely write of an operation on that card |
| ActivitySweeps.SweepBegins | src/MythLab.App/ViewModels/DeviceActivityViewModel.cs:73-85 | a sweep begins over the visible cards exactly when none is under way and the model is not stopped |
| ActivitySweeps.BatchTakesNextCards | src/MythLab.App/ViewModels/DeviceActivityViewModel.cs:83-93 | a batch takes the next cards of the sweep, up to eight, begins a check of each that is visible and not waking, and leaves the rest of the sweep |
| ActivitySweeps.SweepIsGivenUp | src/MythLab.App/ViewModels/DeviceActivityViewModel.cs:85-88 | a cancelled sweep is given up, with the cards it had left, exactly between two batches |
| ActivitySweeps.EverySweepCanEnd | src/MythLab.App/ViewModels/DeviceActivityViewModel.cs:73-90 | whatever happened, some continuation completes a sweep that is under way, without abandoning it |
| ActivitySweeps.EverySweepTakesEachCardOnce | src/MythLab.App/ViewModels/DeviceActivityViewModel.cs:83-90 | a sweep that is not abandoned gives every card visible at its start its turn exactly once and in order, whatever happens in between |
| DeviceActivityViewModel.ViewModel.Synchronize | src/MythLab.App/ViewModels/DeviceActivityViewModel.cs:24-52 | the fields end as the synchronisation step says, and the invariant is kept |
| DeviceActivityViewModel.ViewModel.NextBatch | src/MythLab.App/ViewModels/DeviceActivityViewModel.cs:83-90 | the next eight cards of the snapshot start their checks once the previous batch is done |
| DeviceActivityViewModel.ViewModel.BeginWake | src/MythLab.App/ViewModels/DeviceActivityViewModel.cs:128-137 | a wake is registered under a new generation, or refused, or throws for a taken key |
| DeviceActivityViewModel.ViewModel.Returned | src/MythLab.App/ViewModels/DeviceActivityViewModel.cs:99-100 | an outdated result ends its operation without touching the card |
| DeviceActivityViewModel.ViewModel.Resumed | src/MythLab.App/ViewModels/DeviceActivityViewModel.cs:117-122 | the fields end as the resuming step says: `ResultLands` names what the card then shows, and when it stays as it was |
| DeviceActivityViewModel.ViewModel.Unwind | src/MythLab.App/ViewModels/DeviceActivityViewModel.cs:138-143 | the registration and the waking mark are taken back together |
| TerminalOutput.PutKeeps | src/MythLab.Infrastructure/Ssh/BoundedTerminalOutput.cs:12-20 | an accepted chunk is appended to what is unread, a refused one changes nothing |
| TerminalOutput.ReadKeeps | src/MythLab.Infrastructure/Ssh/BoundedTerminalOutput.cs:21-35 | a read takes the oldest unread bytes, at least one if there is one, and returns 0 to a non-empty buffer exactly when the stream is completed without error and empty |
| TerminalOutput.StreamIsBoundedFifo | src/MythLab.Infrastructure/Ssh/BoundedTerminalOutput.cs:7-36 | in every interleaving the bytes read are a prefix of those written and at most 65 chunks of 8192 bytes lie between |
| TerminalOutput.NoFalseEndOfStream | src/MythLab.Infrastructure/Ssh/BoundedTerminalOutput.cs:23-27 | the end of the stream is returned only after a completion without error and after everything was read |
| BoundedTerminalOutput.Buffer.WriteAsync | src/MythLab.Infrastructure/Ssh/BoundedTerminalOutput.cs:12-20 | what is accepted is a prefix of the bytes, all of them on normal return; it stops short only while the queue is full, when its writer is cancelled, or because the stream was or is being completed |
| BoundedTerminalOutput.Buffer.ReadAsync | src/MythLab.Infrastructure/Ssh/BoundedTerminalOutput.cs:21-35 | the oldest unread bytes are copied to the front of the caller's buffer and the rest of it is untouched |
| BoundedTerminalOutput.Buffer.Complete | src/MythLab.Infrastructure/Ssh/BoundedTerminalOutput.cs:36 | only the first completion decides whether the stream ends in error |
| SshTerminalSession.Session.Drain | src/MythLab.Infrastructure/Ssh/SshTerminalSession.cs:22-45 | bytes leave the shell and enter the stream in order and are lost only to a completed stream; each turn moves at least one, and without an interruption only want of room keeps the rest back |
| SshTerminalSession.Session.OnClosed | src/MythLab.Infrastructure/Ssh/SshTerminalSession.cs:18 | the stream is completed after everything the shell still held was written |
| SshTerminalSession.Session.DisposeAsync | src/MythLab.Infrastructure/Ssh/SshTerminalSession.cs:57-68 | only the first disposal completes the stream, and nothing already in it changes |
| TerminalSession.NextFrameId | src/MythLab.App/Views/TerminalWindow.cs:192 | incrementing the 32-bit counter gives the number of the next frame, wrap-around included |
| TerminalSession.FramesAreInOrder | src/MythLab.App/Views/TerminalWindow.cs:186-195 | in every session the posted frames, joined, are a prefix of what the shell produced, in pieces of 1 to 8192 bytes |
| TerminalSession.EndOfSessionIsHonest | src/MythLab.App/Views/TerminalWindow.cs:189-190 | the remote end is reported only when the shell closed and every byte was posted |
| TerminalSession.EverythingCanBeDelivered | src/MythLab.App/Views/TerminalWindow.cs:186-195 | no session is ever stuck: while it runs and the transport has not failed, some continuation posts every byte the shell produced and reports the end |
| TerminalSession.SessionEndsOnce | src/MythLab.App/Views/TerminalWindow.cs:186-195 | a session ends when it is stopped, or when the window reads a completed and empty stream, by its end or its failure; after that nothing is posted |
| TerminalSession.ReconnectStartsAfresh | src/MythLab.App/Views/TerminalWindow.cs:162-168 | a reconnect starts an empty session that can go on, and the frames go on being counted |
| TerminalSession.EachFrameWaitsForItsOwnAck | src/MythLab.App/Views/TerminalWindow.cs:122-124 | a frame is posted only after every earlier one was released by an acknowledgement of its own number, which up to 2^32 frames is its own acknowledgement |
| TerminalSession.SameIdIffCongruent | src/MythLab.App/Views/TerminalWindow.cs:192 | two frames share a number exactly when they are a multiple of 2^32 apart |
| TerminalSession.VeryLateAckReleasesTheWrongWait | src/MythLab.App/Views/TerminalWindow.cs:123 | in some run an acknowledgement of frame 1 releases the wait for frame 2^32 + 1 |
| TerminalSession.OwnAcksIffNoWrap | src/MythLab.App/Views/TerminalWindow.cs:122-124 | every wait is released by its own acknowledgement in all runs up to a number of frames exactly if that number is at most 2^32 |
| TerminalLifecycle.EveryRunKeepsInv | src/MythLab.App/Views/TerminalWindow.cs:156-170 | every mix of reconnect, stop and close keeps the one running session the one that is awaited |
| TerminalLifecycle.AtMostOneRunIsLive | src/MythLab.App/Views/TerminalWindow.cs:244-260 | at most one session loop is live, and none once the window has drained |
| TerminalLifecycle.EveryStopReachesTheLiveRun | src/MythLab.App/Views/TerminalWindow.cs:244-251 | whatever earlier stops return meanwhile, the cancellation the window holds is that of the live run, so every stop cancels it |
| TerminalLifecycle.OnlyTheCurrentIsCancelled | src/MythLab.App/Views/TerminalWindow.cs:244-251 | a cancellation is requested only of the one the window holds, by a stop or a failing renderer |
| TerminalLifecycle.EverySourceIsDisposed | src/MythLab.App/Views/TerminalWindow.cs:244-251 | every cancellation source ever made is disposed of or the one the window holds, never both, so none that is disposed of is cancelled or runs; once drained all are disposed of |
| TerminalLifecycle.ReconnectStartsOneRun | src/MythLab.App/Views/TerminalWindow.cs:162-168 | a reconnect that comes through its wait starts exactly one run, which nothing has cancelled, unless the window is closing |
| TerminalLifecycle.ClickCountsIff | src/MythLab.App/Views/TerminalWindow.cs:156-162 | a click begins a reconnect exactly when none is under way and the window neither closes nor has lost its renderer |
| TerminalLifecycle.CloseBegins | src/MythLab.App/Views/TerminalWindow.cs:253-257 | a close begins exactly once, and the window stays one that closes |
| TerminalLifecycle.CloseCanFinish | src/MythLab.App/Views/TerminalWindow.cs:253-260 | a closing window can always be drained |
| TerminalWindow.TerminalWindow.ReconnectClicked | src/MythLab.App/Views/TerminalWindow.cs:158-162 | a click is ignored while closing, restarting or in need of reopening |
| TerminalWindow.TerminalWindow.CloseRequested | src/MythLab.App/Views/TerminalWindow.cs:253-257 | closing begins once |
| TerminalWindow.TerminalWindow.EnterStop | src/MythLab.App/Views/TerminalWindow.cs:246-249 | a stop captures the session and the cancellation of this moment |
| TerminalWindow.TerminalWindow.StopReturns | src/MythLab.App/Views/TerminalWindow.cs:249-250 | a stop disposes of the cancellation and clears it only if it is still the captured one |
| TerminalWindow.TerminalWindow.ReconnectContinues | src/MythLab.App/Views/TerminalWindow.cs:162-168 | a new session starts only where none is live, and not while closing |
| TerminalWindow.TerminalWindow.PostFrame | src/MythLab.App/Views/TerminalWindow.cs:188-194 | posting what a read returned is the reading step of the session machine: the frame extends the posted bytes by exactly these, carries the next 32-bit number and awaits a fresh acknowledgement |
| TerminalWindow.TerminalWindow.OnAck | src/MythLab.App/Views/TerminalWindow.cs:122-124 | a message about a posted frame is the session's acknowledgement of it; it completes the wait only for a frame with the number of the newest one, up to 2^32 frames that very frame |
| CredentialSave.EveryEndingIsAccountedFor | src/MythLab.Core/Credentials/CredentialSaveService.cs:24-80 | for every pattern of throwing calls, an early failure or a full rollback leaves both stores as they were, and one that asks for repair leaves a store changed only if restoring that store threw |
| CredentialSave.SaveGoesThroughIff | src/MythLab.Core/Credentials/CredentialSaveService.cs:15-39 | a save touches the stores, and ends in success or a rollback, exactly when the request is valid, nothing read throws, the caller does not cancel, the id is not a new one with a secret, and a password credential that keeps its secret has one under an unchanged kind |
| CredentialSave.RefusedFor | src/MythLab.Core/Credentials/CredentialSaveService.cs:24-39 | when a valid request is refused for a missing password, for a store that throws, or as cancelled |
| CredentialSave.ForeignSecretIsRefused | src/MythLab.Core/Credentials/CredentialSaveService.cs:33-34 | a new credential whose id has a secret already is refused for that reason, unless something stops the save before |
| CredentialSave.ForeignSecretsAreSafe | src/MythLab.Core/Credentials/CredentialSaveService.cs:15-81 | over every run of saves, a secret without a row is never adopted, overwritten or deleted |
| CredentialSave.RepairIffRestorationThrew | src/MythLab.Core/Credentials/CredentialSaveService.cs:54-78 | a save that throws ends in a rollback, which asks for repair exactly when an attempted restoration threw |
| CredentialSave.MutationEnds | src/MythLab.Core/Credentials/CredentialSaveService.cs:40-78 | for every pattern of throwing calls, what row and what secret are left: each stays changed exactly when its change took effect and its restoration did not, and everything else is untouched |
| CredentialSave.SavedMeansBothChanged | src/MythLab.Core/Credentials/CredentialSaveService.cs:45-52 | after success the row is the one given, and the secret is the replacement, gone after a change of kind, or untouched |
| CredentialSave.CoherenceLostIff | src/MythLab.Core/Credentials/CredentialSaveService.cs:15-81 | a save of coherent stores leaves a password credential without its password exactly when the row of a password credential stays changed while its secret, absent before, does not, or the row is put back while the secret deleted with the change to a key is not |
| CredentialSave.SaveKeepsCoherence | src/MythLab.Core/Credentials/CredentialSaveService.cs:35-52 | if every password credential has a secret, it still has one after a success or a full rollback |
| CredentialSave.CoherentOverRuns | src/MythLab.Core/Credentials/CredentialSaveService.cs:15-81 | every password credential has a secret after any run of saves in which neither happens |
| CredentialSave.RepairMayBreakCoherence | src/MythLab.Core/Credentials/CredentialSaveService.cs:56-77 | a rollback that asks for repair can leave a password credential without its password |
| CredentialSave.RepairMayLoseOldPassword | src/MythLab.Core/Credentials/CredentialSaveService.cs:48-77 | a change from password to key that fails can leave the old password credential with its secret deleted |
| CredentialSaveService.Service.SaveAsync | src/MythLab.Core/Credentials/CredentialSaveService.cs:15-81 | stores and outcome are those of `Save`, of which `SaveGoesThroughIff` says when it changes anything and `MutationEnds` what; the gate is free on every path |
| CredentialSaveService.Service.SaveHoldingGate | src/MythLab.Core/Credentials/CredentialSaveService.cs:26-39 | the reads before the first change lead to the ending of `Save`, refusals included |
| CredentialSaveService.Service.MutateStores | src/MythLab.Core/Credentials/CredentialSaveService.cs:40-78 | both restorations are attempted, whatever the other does |
| Ipv4Subnet.ContiguousIffMask | src/MythLab.Core/Discovery/Ipv4Subnet.cs:21-23 | the bit test accepts exactly the runs of ones followed by zeros, /0 and /32 included |
| Ipv4Subnet.SubnetIsAlignedBlock | src/MythLab.Core/Discovery/Ipv4Subnet.cs:17-27 | the subnet is the aligned block of 2^(32 - prefix) addresses that contains the address |
| Ipv4Subnet.HostRange | src/MythLab.Core/Discovery/Ipv4Subnet.cs:12-14 | no host bound wraps, the count matches them, and it is 2 and 1 for prefixes 31 and 32 |
| Ipv4Subnet.HostCountCountsHosts | src/MythLab.Core/Discovery/Ipv4Subnet.cs:14-29 | the count is the number of addresses `ContainsHost` accepts |
| Ipv4Subnet.CreateValid | src/MythLab.Core/Discovery/Ipv4Subnet.cs:17-27 | a subnet is made of exactly the texts of an address and of a contiguous mask, and is the block of that mask around the address |
| Discovery.ScanCoversTheRange | src/MythLab.Core/Discovery/DiscoveryModels.cs:44-57 | an accepted scan visits each address from start to end once, without wrapping, all usable hosts of the subnet, at most 4096 |
| Discovery.AcceptedIff | src/MythLab.Core/Discovery/DiscoveryModels.cs:44-57 | a scan is accepted exactly within the limits and over 1 to 4096 addresses in order that are all hosts of the interface's subnet |
| NetworkDiscovery.AdvanceOk | src/MythLab.Infrastructure/Discovery/NetworkDiscoveryService.cs:70-112 | at every step a worker claims nothing its address's record will not back |
| NetworkDiscovery.NextKeepsInv | src/MythLab.Infrastructure/Discovery/NetworkDiscoveryService.cs:28-115 | every step of every worker and of the neighbour passes keeps the scan invariant, and forgets nothing |
| NetworkDiscovery.EveryScanKeepsInv | src/MythLab.Infrastructure/Discovery/NetworkDiscoveryService.cs:64-115 | so does every schedule |
| NetworkDiscovery.ReportedRecordsAreHonest | src/MythLab.Infrastructure/Discovery/NetworkDiscoveryService.cs:28-40 | in every reported record a device is online exactly when a live observation is dated, and cache or ARP evidence comes with a MAC address |
| NetworkDiscovery.EvidenceIsUnionAndGrows | src/MythLab.Infrastructure/Discovery/NetworkDiscoveryService.cs:31-38 | the evidence of an address is the union of everything published for it, and nothing known is ever lost |
| NetworkDiscovery.LatestWordWins | src/MythLab.Infrastructure/Discovery/NetworkDiscoveryService.cs:31-38 | MAC, hostname, vendor and live time of a record are the last non-empty ones published for its address |
| NetworkDiscovery.WorkKeepsShown | src/MythLab.Infrastructure/Discovery/NetworkDiscoveryService.cs:31-39 | the latest report of an address equals its record, except while the worker of that address is about to report it |
| NetworkDiscovery.WorkersFinish | src/MythLab.Infrastructure/Discovery/NetworkDiscoveryService.cs:70-112 | in any schedule a worker that is not stopped is done once it took the steps it still had, at most ten, whatever the network answers and the others do in between |
| NetworkDiscovery.AllWorkersFinish | src/MythLab.Infrastructure/Discovery/NetworkDiscoveryService.cs:64-113 | any schedule that stops no worker and gives each ten steps ends the parallel loop |
| NetworkDiscovery.FinishedScanIsShown | src/MythLab.Infrastructure/Discovery/NetworkDiscoveryService.cs:67-115 | a finished scan counted its whole range, reported exactly its final records, all in range, and with canonical neighbours found no more than it scanned |
| NetworkDiscovery.OtherSpellingsAreCountedTwice | src/MythLab.Infrastructure/Discovery/NetworkDiscoveryService.cs:49-51 | any other spelling of an address in the neighbour cache makes a one-address scan find two devices |
| NetworkDiscovery.CountNeedsCanonicalSpelling | src/MythLab.Infrastructure/Discovery/NetworkDiscoveryService.cs:49-51 | Found stays within Scanned under a spelling exactly when it is the canonical one |
| NetworkDiscovery.OtherSpellingsExist | src/MythLab.Core/Discovery/Ipv4Subnet.cs:31-44 | every address has a spelling that parses to it and is not canonical |
| DiscoveryProvenance.OnlineMeansAnswered | src/MythLab.Infrastructure/Discovery/NetworkDiscoveryService.cs:73-98 | in every schedule, cancelled or not, an address is online only if it answered a ping of this scan or is the selected interface |
| DiscoveryProvenance.OnlineIffAnswered | src/MythLab.Infrastructure/Discovery/NetworkDiscoveryService.cs:73-115 | when an uncancelled scan has finished, the addresses in the table that are online and dated are exactly those that answered a ping, and the interface's own if the range visits it |
| DiscoveryProvenance.AnswersAreListed | src/MythLab.Infrastructure/Discovery/NetworkDiscoveryService.cs:84-109 | and exactly those that answered ARP have that evidence and a MAC address, and those whose name was found a hostname |
| DiscoveryProvenance.TableSaysWhatWasHeard | src/MythLab.Infrastructure/Discovery/NetworkDiscoveryService.cs:28-115 | its table says of every address exactly what was heard of it: each kind of evidence, and whether it has a name |
| DiscoveryProvenance.NothingIsMadeUp | src/MythLab.Infrastructure/Discovery/NetworkDiscoveryService.cs:28-112 | in every schedule, evidence, MAC address, hostname, vendor and live time of a record were heard of its address |
| DiscoveryProvenance.NothingAfterCancel | src/MythLab.Infrastructure/Discovery/NetworkDiscoveryService.cs:28-40 | once a scan is cancelled nothing more is published, however it goes on |
| DiscoveryQuestions.EveryAddressIsAsked | src/MythLab.Infrastructure/Discovery/NetworkDiscoveryService.cs:64-109 | in a finished scan every address but the interface's own was pinged and, unless a usable MAC address was known by then, asked by ARP; the own address was not; each was asked for its name unless nothing was known of it |
| NetworkDiscoveryService.ScanRun.AddOrUpdate | src/MythLab.Infrastructure/Discovery/NetworkDiscoveryService.cs:31-38 | the dictionary changes only at the published address, to the merged record |
| NetworkDiscoveryService.ScanRun.Publish | src/MythLab.Infrastructure/Discovery/NetworkDiscoveryService.cs:28-40 | after cancellation nothing is published, otherwise the merged record is reported |
| NetworkDiscoveryService.ScanRun.MergeNeighbors | src/MythLab.Infrastructure/Discovery/NetworkDiscoveryService.cs:41-62 | the loop publishes the usable entries in range in order and ends at the first text that is not an address |
| NetworkDiscoveryService.ScanRun.Resume | src/MythLab.Infrastructure/Discovery/NetworkDiscoveryService.cs:70-112 | one uninterrupted stretch of a worker does exactly one step of the scan; `TableSaysWhatWasHeard` says that its answers reach the table |
| DiscoveryScreen.RowsAreTheLatestUpdates | src/MythLab.App/ViewModels/DiscoveryViewModel.cs:133-153 | the rows ascend strictly by address and are exactly the latest update of each |
| DiscoveryScreen.RowOrderIgnoresArrival | src/MythLab.App/ViewModels/DiscoveryViewModel.cs:139-148 | the order of the rows depends on the addresses seen only, and equal latest updates give equal rows |
| DiscoveryScreen.FinishedScanIsListed | src/MythLab.App/ViewModels/DiscoveryViewModel.cs:133-156 | when a scan has finished, the list is its result table in ascending order, one row per device found |
| DiscoveryScreen.StaleUpdatesChangeNothing | src/MythLab.App/ViewModels/DiscoveryViewModel.cs:135 | dropping every update of an earlier scan from any continuation changes nothing |
| DiscoveryScreen.ScreenShowsTheCurrentScan | src/MythLab.App/ViewModels/DiscoveryViewModel.cs:133-153 | during a scan that starts from an empty list the rows are its own reports in order, the completed count is the largest reported and the total the last |
| DiscoveryScreen.ScanInProgress | src/MythLab.App/ViewModels/DiscoveryViewModel.cs:116-153 | a scan under way on a screen that showed anything before: whatever stale reports arrive before the list is cleared, the rows are its own reports and the count is the largest of them |
| DiscoveryScreen.ScanStartsAfresh | src/MythLab.App/ViewModels/DiscoveryViewModel.cs:116-165 | when it ends the rows stay, whatever arrives late, and the count is what the scan says |
| DiscoveryViewModel.ViewModel.Report | src/MythLab.App/ViewModels/DiscoveryViewModel.cs:133-153 | index and list stay in agreement, and the screen changes as one accepted or dropped update |
| DiscoveryViewModel.ViewModel.ShowDevice | src/MythLab.App/ViewModels/DiscoveryViewModel.cs:140-152 | a known address keeps its row object, a new one gets a new row in numeric order |
| DiscoveryViewModel.ViewModel.PositionOf | src/MythLab.App/ViewModels/DiscoveryViewModel.cs:145-147 | the loop finds the first row that does not come before the address |
| DiscoveryViewModel.ViewModel.BeginScan | src/MythLab.App/ViewModels/DiscoveryViewModel.cs:116-118 | a new scan outdates all earlier callbacks |
| KnownHostText.IdentifiedIsReadable | src/MythLab.Infrastructure/Ssh/KnownHostsStore.cs:11-44 | the store can read back what it makes of an endpoint exactly when removing final dots leaves no white space, and the other parts are present |
| KnownHosts.TrustedIsReadableIff | src/MythLab.Infrastructure/Ssh/KnownHostsStore.cs:27-50 | a readable file stays readable after a successful trust exactly when the trusted record can be read back |
| KnownHostText.TrustPoisonsFileIff | src/MythLab.Infrastructure/Ssh/KnownHostsStore.cs:11-50 | so after trusting an endpoint the next read fails exactly when the endpoint keeps white space, or lacks a part |
| KnownHostText.SpaceBeforeDotIsNotStorable | src/MythLab.Infrastructure/Ssh/KnownHostsStore.cs:11-50 | trusting `nas .` for the first time makes any readable file unreadable |
| KnownHosts.TrustKeeps | src/MythLab.Infrastructure/Ssh/KnownHostsStore.cs:45-50 | trusting only appends, records the host, and keeps endpoints distinct and the file readable |
| KnownHosts.RemoveKeeps | src/MythLab.Infrastructure/Ssh/KnownHostsStore.cs:51-52 | removing keeps endpoints distinct and the file readable |
| KnownHosts.OneRecordOneKey | src/MythLab.Infrastructure/Ssh/KnownHostsStore.cs:14-20 | without conflicting records, a key of a recorded endpoint is trusted exactly when it is the recorded one |
| KnownHosts.RekeyNeedsTheSameKey | src/MythLab.Infrastructure/Ssh/SshSessionService.cs:62-77 | after trusting, a later key exchange is accepted exactly when it presents the same algorithm and key |
| KnownHostsStore.Store.ReadAsync | src/MythLab.Infrastructure/Ssh/KnownHostsStore.cs:27-44 | one bad entry makes the whole file unreadable, otherwise all entries are returned |
| KnownHostsStore.Store.ListAsync | src/MythLab.Infrastructure/Ssh/KnownHostsStore.cs:21-26 | listing changes nothing and frees the gate on every path |
| KnownHostsStore.Store.TrustAsync | src/MythLab.Infrastructure/Ssh/KnownHostsStore.cs:45-50 | a changed identity or any failure leaves the file alone, success leaves the host confirmed, and the file readable exactly when the host can be read back |
| KnownHostsStore.Store.RemoveAsync | src/MythLab.Infrastructure/Ssh/KnownHostsStore.cs:51-52 | exactly the equal records go, or the file is left alone |
| KnownHostsStore.Store.UpdateAsync | src/MythLab.Infrastructure/Ssh/KnownHostsStore.cs:53-68 | the file is replaced as a whole or not at all, and the gate is freed |
| SshSessions.OnHostKeyOk | src/MythLab.Infrastructure/Ssh/SshSessionService.cs:62-71 | whatever keys arrive, what a call approves was listed or reviewed, and no longer changes once trusted |
| SshSessions.NextKeepsCalls | src/MythLab.Infrastructure/Ssh/SshSessionService.cs:17-98 | every step keeps each call's key listed, reviewed or none, whatever the file contains |
| SshSessions.NextKeepsInv | src/MythLab.Infrastructure/Ssh/SshSessionService.cs:17-98 | every step of every call and removal keeps the sessions in agreement with the file |
| SshSessions.FileKeepsOneRecordEach | src/MythLab.Infrastructure/Ssh/KnownHostsStore.cs:45-68 | at most one record per endpoint stays so in every run |
| SshSessions.RacingSessionsAgree | src/MythLab.Infrastructure/Ssh/SshSessionService.cs:62-77 | any two returned sessions of an endpoint without a removal between their trusting steps presented the same algorithm and key |
| SshSessions.ReturnedKeysWereListedOrReviewed | src/MythLab.Infrastructure/Ssh/SshSessionService.cs:11-30 | each returned key was recorded when its attempt listed the file, or is exactly what the user reviewed and accepted; no call makes more than two attempts |
| SshSessions.AgreementNeedsConflictFreeFile | src/MythLab.Infrastructure/Ssh/KnownHostsStore.cs:14-20 | sessions agree in every run exactly when the file they start from has no two records of an endpoint with different keys |
| SshSessions.RemovalIsUndone | src/MythLab.Infrastructure/Ssh/SshSessionService.cs:37-76 | a removal between a session's listing and its trusting step is followed by the record's return |
| SshSessions.RemovalStaysIff | src/MythLab.Infrastructure/Ssh/SshSessionService.cs:37-98 | a removed record stays out of every continuation without a new accepted review of it exactly when, at the removal, no call of its endpoint before its trusting step may trust it by what it listed or reviewed |
| SshConnects.UndisturbedConnect | src/MythLab.Infrastructure/Ssh/SshSessionService.cs:17-98 | undisturbed, a recorded key gives a session, another key than the recorded one is refused, and for an endpoint without a record the user is asked about the very key presented: accepted and presented again it gives a session and its record is added, rejected it is refused |
| SshConnects.InterruptedConnect | src/MythLab.Infrastructure/Ssh/SshSessionService.cs:78-98 | wherever a first attempt breaks off no record is added; it ends in the review of the key it was shown, if that is unknown and nobody cancelled, and has failed otherwise |
| SshSessionService.ManagedEndpointsStayReadable | src/MythLab.Core/Devices/Device.cs:37 | what is trusted for a managed device can always be read back |
| SshSessionService.Attempt.HostKeyReceived | src/MythLab.Infrastructure/Ssh/SshSessionService.cs:62-71 | the callback approves, rejects or asks for review as the session machine says |
| SshSessionService.SshSessionService.ConnectAttemptAsync | src/MythLab.Infrastructure/Ssh/SshSessionService.cs:32-98 | a session is returned exactly when the connection comes up, every key presented was listed or is the reviewed one, and the file can be read and written; a review exactly for an unknown key in a first attempt nobody cancels; the key is in the file afterwards |
| SshSessionService.SshSessionService.ConnectAsync | src/MythLab.Infrastructure/Ssh/SshSessionService.cs:17-30 | at most two attempts; a session comes from the first, or from the second exactly after the user confirmed the key asked about; otherwise the refusal or the failure of the attempt |
| StatusCheck.CheckAsync | src/MythLab.Infrastructure/Monitoring/WindowsDeviceStatusService.cs:50-108 | Online exactly after a reached attempt succeeded, Unknown exactly when every check failed to run in time, otherwise Offline or cancelled; exactly the attempts reached were made, each with its slice |
| StatusCheck.SlicesAreFair | src/MythLab.Infrastructure/Monitoring/WindowsDeviceStatusService.cs:57-66 | with a millisecond per address, slices never shrink, each is at least an even share, the total stays within the budget, and every address gets its turn |
| StatusCheck.EveryAddressGetsItsTurnIff | src/MythLab.Infrastructure/Monitoring/WindowsDeviceStatusService.cs:54-66 | every check whose attempts keep to their slices and do not end it reaches the last of n addresses exactly when more than n - 1 milliseconds are left, and stays within the budget exactly when n are |
| WakeOnLan.DelaysInAll | src/MythLab.Infrastructure/WakeOnLan/WakeOnLanService.cs:27-35 | the delays of the loop total R retry delays and (R + 1)(P - 1) packet delays |
| WakeOnLan.ScheduleBounds | src/MythLab.Core/Devices/DeviceRules.cs:35-37 | a validated device gets at most 60 packets and 690000 ms of delay, and both are reached |
| WakeOnLan.SameWakeWakesAlike | src/MythLab.Core/Monitoring/StatusObservation.cs:11-14 | devices with the same wake target are woken alike: by as many packets with the same delays for the same MAC address, to the same destination or not at all |
| WakeOnLan.SendAsync | src/MythLab.Infrastructure/WakeOnLan/WakeOnLanService.cs:11-42 | for a valid device that is woken through a destination `Select` finds, P(R + 1) packets are sent with that delay; each other case gives its own error and sends nothing; an interrupted call stopped at the failing packet |
| WakeRouting.SelectIgnoresOrder | src/MythLab.Core/WakeOnLan/WakeContracts.cs:21-45 | the destination, or the error, is the same for every order of the interfaces |
| WakeRouting.SelectIsSound | src/MythLab.Core/WakeOnLan/WakeContracts.cs:24-44 | the chosen interface has a prefix below 31, matches the configured id and directed broadcast, and reaches the target when neither is set |
| WakeRouting.CandidatesAreEligible | src/MythLab.Core/WakeOnLan/WakeContracts.cs:24-33 | the filters together keep exactly the eligible interfaces |
| WakeRouting.ChosenIffUnique | src/MythLab.Core/WakeOnLan/WakeContracts.cs:34-42 | an interface is chosen exactly when one eligible interface is left, or one that reaches the target |
| WakeRouting.RefusalSaysWhy | src/MythLab.Core/WakeOnLan/WakeContracts.cs:24-42 | each refusal says why: the configured interface is not there, nothing is left, or more than one is and the target does not decide |
| WakeRouting.UnreadableTargetIsRefused | src/MythLab.Core/WakeOnLan/WakeContracts.cs:34-42 | with a target that cannot be read an interface is chosen only if one eligible is left and something is configured |

## Left out

- Enumeration values outside their definition: a Dafny datatype has none, so `Enum.IsDefined` never fails here.
- DeviceRepository.ReachableTablesKeepIdentity: JSON text, SQLite pages and the schema's creation are not modelled; a row is its columns and its document.
- SqliteDeviceRepository.Repository.ReadDevices: the order of the rows is not modelled, so of several duplicates any may be the one named.
- SqliteDeviceRepository.OnlyInitializedOperationsCount: creating tables, WAL mode and profiles is SQLite's; of the schema only its version is modelled, and no other process changes the file in between.
- Unicode: whether a text is a DNS name, upper-casing and lower-casing are parameters with the few laws the proofs need; device names and tags are compared through them.
- Synchronization.SynchronizeShowsInventory: the sorting of cards by display name is any given permutation; culture rules are not modelled.
- DeviceActivityViewModel.ViewModel.Synchronize: cards are places in a heap field rather than Dafny objects, and a removed card keeps its place.
- DeviceActivity: the monitor loop, `StopAsync` waiting for the operations, and log texts; a lifetime cancelled between batches is a step, a token cancelled inside a call is that call's failure.
- WakeDevice.WakeAsync: time is a script of polls; that the deadline comes is not claimed.
- TerminalSession.EachFrameWaitsForItsOwnAck: the two-minute watchdog and the visible time it counts; giving up is the step that stops the window.
- TerminalWindow: keyboard input, resizing, clipboard, browser start-up and status texts.
- SshTerminalSession.Session.OnClosed: an exception thrown by the shell's own `Read` other than disposal; a disposal during a read is one before it.
- CredentialSave.EveryEndingIsAccountedFor: changes made to either store by other programs during a save; a restoration that returns normally has taken effect.
- Discovery.ScanCoversTheRange: the check that the selected interface is still present, and the concurrency limit of the loop; any schedule is allowed.
- NetworkDiscovery.EveryScanKeepsInv: `EvidenceCollectedAt`, diagnostics and the completed count inside a report.
- NetworkDiscovery.FinishedScanIsShown: a body that throws ends the scan with that exception; such scans never finish and nothing is claimed of their counts.
- DiscoveryViewModel.ViewModel.Report: an address that cannot be parsed would throw in the callback; published addresses always can. The managed-device label of a row is left out.
- KnownHostText.IdentifiedIsReadable: base-64 and SHA-256 texts; a key is its bytes and the fingerprint a function of them. The 4 MB limit of the file is one of its read failures.
- SshSessions.RacingSessionsAgree: SSH.NET itself; the callback may come at any time and in any number, and a connection may fail at any step. Files edited by other programs during a run.
- SshSessionService.SshSessionService.ConnectAttemptAsync: profile checks, secrets, key files and authentication; they fail before or instead of a connection.
- StatusCheck.CheckAsync: the detail texts; real milliseconds instead of `TimeSpan` ticks; how long an attempt takes and when the budget's timer fires are inputs.
- WakeOnLan.SendAsync: the magic packet's bytes and the look-up of a target address by DNS, whose answer is an input.
- Settings, launchers, themes, menus, dependency injection and views: single checks or no logic of their own.
- Liveness: only that a discovery worker ends after its own steps, and that a session, a sweep and a closing window can always reach their ends; nothing about schedulers, networks or clocks making progress.
