# CHEBURNET: a verified model of its update, recovery and formats

CHEBURNET is a Windows launcher written in C++ that manages one elevated engine process,
`winws.exe`. It installs signed engine packages beside each other, switches between them with a
persisted record, and recovers at its next start when an update, the launcher or the machine died
in between. These Dafny modules model that logic and prove properties of it. `dafny verify
dfyconfig.toml` checks the whole project. Nothing of the original was executed.

## How the model is built

A C++ text is a Dafny `string`, with one `char` for each byte of a narrow text and for each
character of a wide one; the command line is made of 16-bit code units. Calls to the operating system
are nondeterministic: each is an outcome the code branches on. Where the source changes things step
by step there is a method or a class with the same loops and branches, proved equal to a function
or to a step of a transition system; the properties are lemmas about that function or system. Over
the modules:

- **Update and startup recovery.** `RuntimeModel` is one transition system: the persisted record
  (current, previousKnownGood, pending), the version directories and which of them verify, the
  engine processes with the process record that names the last one started, and where the launcher
  stands in `App::App` or in `ApplyPayload`. A save works, fails with the old record in place, or
  fails after the new record took effect; a stop works, fails with the process alive, fails although
  it dies, or takes a live process for a dead one; a launch reads the state file twice, and either
  read may fail. The launcher knows an engine only by what it observes, and every observation may
  fail: a new manager may see the recorded engine, not be able to read or confirm its record, or
  delete it; a manager that holds the record may not see its engine when asked; the list of processes may
  miss one. A version verifies if its directory holds a manifest for exactly this text
  (src/core/ResourceExtractor.cpp:401-402), while directories and images fold case. A crash, a process exit or file damage
  may fall between any two steps. `RuntimeInvariant`, `RuntimeSafety`, `RuntimeLockout`,
  `RuntimeEngines`, `RuntimeAnswers`, `RuntimeStartup` and `RuntimeCleanup` prove properties over all
  runs: what is safe, exactly when each answer is given, and what happens when all calls work.
  `RuntimeFaults` names the faults that some of them depend on. `UpdateManager` and `App` hold the imperative
  code: every effect of theirs is a step of the system, so the properties hold of them.
- **JSON.** `Json` is the parser as functions, `JsonParser` the class of the source proved against
  them, `JsonGrammar` the grammar of RFC 8259 as syntax trees that share nothing with the parser,
  and `JsonTokens` and `JsonExact` prove that the two agree in both directions. `JsonUtf8` shows
  that nothing but well-formed UTF-8 is accepted. `JsonQuote`,
  `JsonPrinter`, `RuntimeStateStore`, `Configuration` and `ProcessRecords` are the printers and
  readers on top, with their round trips; each reader also has a theorem that says which texts it
  accepts and as what, with the limits and defaults written out.
- **Formats.** `CommandLine` is proved against the splitting rules of CommandLineToArgvW, `Crc`
  against section 8 of RFC 1952, `Zip` against a reader (`ZipReader`) of APPNOTE.TXT, and
  `UpdatePackage`, `PackagePaths`, `PackageTotals`, `PackageFile`, `PackageFormat` and
  `PackageExtract` follow a package from its bytes to a folder.
- **Versions.** `Versions`, `VersionOrder` and `UpdateManifest`: grammar, order, and what chains of
  accepted upgrades can do.
- **Transactions and concurrency.** `ProcessManager` and `ProcessStop` are starting and stopping an
  engine, `UpdateCheckService` is the owner and the worker as an interleaved machine,
  `RuntimeInventory` and `RuntimeVerify` check an installed directory, `Strategies` is the argument
  templates and `SecureFs` the atomic replacement of a file.

## What the proofs found

These are statements that one would expect of the code and that hold only under a condition. Each
has a lemma that says when they hold, and the code is modelled as it is.

- A startup can refuse to start over a running engine. It never does exactly when seven faults are
  excluded (`RuntimeLockout.NeverLockedOutExactly`): a save that fails after it took effect; a stop
  that fails; an update begun beside an engine that the manager no longer holds; a launch that
  cannot read the state file; a new manager that can neither read or confirm the process record nor
  delete it; a manager that does not see the engine it holds; and a stop that takes a live engine for
  a dead one and cannot delete its record. Each alone suffices. The third arises when the save that
  ends a rollback fails: the old engine runs again, but no manager holds it. The fourth arises
  because the file is read twice: after a failed first read the embedded version is selected,
  whatever the second read says. The fifth lets a recovery clear the pending mark without stopping
  the candidate.
- Two engines can be alive at once: never exactly when managers see the engine they hold, no stop
  takes a live engine for a dead one, and the list of processes is complete
  (`RuntimeEngines.OneEngineExactly`). `probe::ProcessAlive` takes a process that it cannot open for
  a dead one, and `Stop` then answers NotRunning, which the update accepts.
- A startup can succeed beside an engine of another version: never exactly when moreover every new
  manager reads and confirms the process record (`RuntimeEngines.NoStrangerExactly`). A record that is
  deleted over a live engine never locks the launcher out, but leaves an engine that nobody knows.
- `SaveRuntimeState` accepts a `last_result` or `manifest_key_id` that is not UTF-8 and writes a
  state that no later start reads (`RuntimeStateStore.UnreadableSave`, `LoadOfSave`).
- `SaveRecord` checks neither the 1024 bytes nor the trailing blank that `LoadRecord` refuses or
  trims (`ProcessRecords.LoadOfSave`).
- The comment in src/update/Version.cpp:56-58 calls the order strict on overflow; it is, but it
  is not transitive: prereleases 9, 10 and 2^64 form a cycle, so Upgrade answers, for payloads
  and for launchers, can go round off the stable channel
  (`VersionOrder.TransitiveExactly`, `UpdateManifest.UpgradesClimbExactly`).
- Two ordered versions may share a directory, as `1-rc` and `1-RC` do, so the order alone does not
  protect the current runtime from the removal of an old candidate directory. It keeps verifying
  exactly when the names differ after folding (`RuntimeCleanup.UpdateKeepsExactly`); a run in which
  it is lost is `RuntimeCleanup.AliasLosesCurrent`.
- The running total of a package wraps around unnoticed unless the limit on a file is within the
  limit on the total, as it is in the limits the launcher uses (`PackageTotals.TotalsExactly`,
  `AcceptedTotalsExactly`, `WrapUnnoticed`).
- The comment in src/util/CommandLine.h:7-9 promises a reconstruction for any argument; as the
  program name, a text with a quote, or one that must be quoted and ends in a backslash, is read
  differently (`CommandLine.ReadProgramExact`).
- The exported archive cannot be read from 65535 entries on, where APPNOTE.TXT asks for the ZIP64
  form (`ZipReader.ReadOfArchive`).
- `ValidTemplateToken` erases placeholders one name after another, so it refuses tokens that
  `BuildArguments` resolves and accepts tokens that keep a percent sign
  (`Strategies.RefusedThoughResolved`, `AcceptedThoughUnresolved`); which tokens of known
  placeholders it accepts is `Strategies.ValidExactly`, and which resolve is `PassesResolve`.
- `IsExpectedWinwsImage` also accepts an image in which root and suffix overlap: `winws.exe`
  directly under a runtime root that is itself a `bin` directory (`ProcessManager.ExpectedExactly`).

## Model

| member | source | states |
|---|---|---|
| Versions.ScanDigits | src/update/Version.cpp:80 | the digit loop stops at the first character that is not a digit |
| Versions.ReadPart | src/update/Version.cpp:79-89 | one core number: refused when it is empty, has a leading zero or does not fit in 64 bits, otherwise its value and its end |
| Versions.ParseCore | src/update/Version.cpp:77-101 | the core loop reads one to eight dot-separated numbers and leaves the rest of the text, or refuses |
| Versions.SplitIdentifiers | src/update/Version.cpp:18-34 | splits at the dots and accepts only when every piece is a non-empty identifier of at most 48 letters, digits and hyphens |
| Versions.ParseSuffix | src/update/Version.cpp:104-127 | the suffix is cut into revision letter, prerelease identifiers and build identifiers, or refused |
| Versions.ParseVersion | src/update/Version.cpp:74-128 | the parser computes the function `Parsed`, about which the next rows speak |
| Versions.ParseSound | src/update/Version.cpp:74-128 | every accepted text (after an optional v) derives from the grammar core, revision, prerelease, build, with the fields returned |
| Versions.ParseComplete | src/update/Version.cpp:74-128 | every text of the grammar within the limits is accepted with exactly the derived fields |
| Versions.ParseExact | src/update/Version.cpp:74-128 | a text parses to a version if and only if the grammar derives that version from it |
| Versions.ParsedExactly | src/update/Version.cpp:74-128 | with every limit written out: a text is read as a version if and only if, after an optional v, it has at most 64 characters and spells one to eight 64-bit numbers, a lower-case letter or none, and prerelease and build words of 1 to 48 letters, digits and hyphens |
| Versions.NoAliases | src/update/Version.cpp:74-128 | the decimal parts joined by dots plus the suffix rebuild the text, so two accepted texts have equal fields exactly when they are the same text |
| Versions.SuffixSplitsUniquely | src/update/Version.cpp:104-127 | one text has one derivation: revision, prerelease and build, which the parser drops, are determined |
| Versions.ParsedIsAscii | src/update/Version.cpp:74-128 | an accepted text is ASCII and at most 65 characters long |
| VersionOrder.CompareIdentifiers | src/update/Version.cpp:45-70 | the loop computes the specification `CompareIds` on identifier lists, with the textual fallback on 64-bit overflow |
| VersionOrder.CompareVersions | src/update/Version.cpp:130-149 | the comparison computes the specification `Compare`, about which the next rows speak |
| VersionOrder.CompareAntisymmetric | src/update/Version.cpp:130-149 | exchanging the arguments negates the answer, which is -1, 0 or 1, on all versions |
| VersionOrder.CompareChain | src/update/Version.cpp:130-149 | below the 64-bit bound the answers along two steps combine as in a total preorder (strict and equal steps) |
| VersionOrder.TransitiveExactly | src/update/Version.cpp:59-62 | the order is transitive on parsed versions whose numeric prerelease identifiers are below a bound if and only if the bound is at most 2^64 |
| VersionOrder.OverflowCycle | src/update/Version.cpp:59-62 | three accepted versions with prereleases 9, 10 and 2^64 form a cycle, because the overflow fallback compares texts |
| VersionOrder.SingleIdentifier | src/update/Version.cpp:45-70 | versions that differ in one prerelease identifier compare as the identifiers do |
| VersionOrder.EqualExactly | src/update/Version.cpp:130-149 | the answer is 0 exactly for equal zero-padded cores, revisions, prerelease flags and identifier lists; build identifiers never matter |
| VersionOrder.PrecedenceIsSemVer | src/update/Version.cpp:45-70 | below the bound, "less" on prerelease lists is the precedence of section 11 of SemVer 2.0.0, stated by the first position where the lists differ |
| VersionOrder.ListIsBefore | src/update/Version.cpp:45-70 | on all prerelease lists, "less" is decided by the first identifier that differs: numbers by value, or as texts if one has no 64 bits, a number before a word, words in ASCII order, and a proper prefix first |
| VersionOrder.LessExactly | src/update/Version.cpp:130-149 | for all accepted versions, "less" means: the first zero-padded core number that differs is smaller; or the cores are equal and the revision is missing on the left only, or is the earlier letter; or the left one is a prerelease of the right one; or both are prereleases with identifiers in that order |
| UpdateManifest.NewerIrreflexive | src/update/UpdateManifest.cpp:152-154 | a version accepted as newer is not also older, and is another text |
| UpdateManifest.NewerTransitive | src/update/UpdateManifest.cpp:152-154 | newer-than composes below the 64-bit bound |
| UpdateManifest.UpgradeIsNewer | src/update/UpdateManifest.cpp:144-176 | the answer Upgrade, for a payload or for the launcher, is given only to a version strictly newer than the current one |
| UpdateManifest.PayloadAnswers | src/update/UpdateManifest.cpp:144-160 | exactly when a payload gets each answer, in the precedence of versions: Upgrade if and only if every version is one, a stable channel gets no prerelease, it comes after the current one, the launcher is not older than the minimum and both schemas are 1 |
| UpdateManifest.LauncherAnswers | src/update/UpdateManifest.cpp:162-176 | exactly when the launcher gets each answer |
| UpdateManifest.ChainClimbs | src/update/UpdateManifest.cpp:144-176 | after any chain of Upgrade answers on one track, payloads or launchers, the last version is newer than the first |
| UpdateManifest.OverflowLoop | src/update/UpdateManifest.cpp:144-176 | on either track a concrete chain of three Upgrade answers that returns to the version it left, with an identifier of 2^64 |
| UpdateManifest.StableClimbs | src/update/UpdateManifest.cpp:144-176 | on the stable channel every chain of Upgrade answers ends newer than it began, whatever the numbers |
| UpdateManifest.UpgradesClimbExactly | src/update/UpdateManifest.cpp:144-176 | for payloads and for launchers: no chain of Upgrade answers on a channel over versions below a bound leads back to or below its start, if and only if the channel is stable or the bound at most 2^64 |
| RuntimeInvariant.StepKeeps | src/update/UpdateManager.cpp:235-482 | every step of an update, of a startup, of connecting or of a cleanup, every crash, process exit and file damage keeps the invariant that ties the record to where the launcher stands and to its local variables |
| RuntimeInvariant.RunKeeps | src/update/UpdateManager.cpp:235-482 | the invariant holds after any run of such events, from any disk and any engines |
| RuntimeInvariant.RunOrdered | src/update/UpdateManager.cpp:271-279 | over any run from a record in order: the fallback stays older than the current version and a pending version newer, on disk and in every copy the launcher holds |
| RuntimeSafety.AnswerMeans | src/update/UpdateManager.cpp:446-481 | over all runs and also when a save reports failure after taking effect: Applied means current is the candidate, previousKnownGood the old current and pending empty; any answer but Applied and RollbackFailed leaves current as it was; RolledBack and StopRejected leave nothing pending |
| RuntimeSafety.RunChoice | src/core/RuntimePaths.cpp:48-56 | at every step of every startup the selected version is the current one of the record, or the embedded one if the first of the two reads of the state failed |
| RuntimeSafety.StartupMeans | src/app/App.cpp:55-166 | a startup that succeeds, after any run and from any disk and engines, leaves nothing pending and has selected the version above; an engine that its manager holds and sees has the image of that version |
| RuntimeSafety.CommitIsEarned | src/update/UpdateManager.cpp:436-445 | at every commit save of every run, whatever the candidate: its files have verified in the same update and, if an engine was running, its engine has started and then been healthy, with no crash between |
| RuntimeSafety.StepCurrent | src/update/UpdateManager.cpp:436-475 | one event leaves the current version alone, or is the commit of the candidate, the return of a startup to the recorded fallback, or the restoring save of a failed update |
| RuntimeSafety.OnlyEarnedCommits | src/update/UpdateManager.cpp:350-481 | wherever in a run the current version changes, it is an earned commit of the new version at that event, the return of a startup to the recorded fallback, or the return of a failed update to the version it began with |
| RuntimeSafety.NeverPromoted | src/app/App.cpp:63-93 | in no run does an event other than the commit of the running update make the pending version current: no restart, crash or rollback promotes it |
| RuntimeSafety.CurrentIsKnown | src/update/UpdateManager.cpp:350-481 | the current version is always one of the first record, the embedded one, or one whose commit was earned |
| RuntimeAnswers.AnswerExactly | src/update/UpdateManager.cpp:303-481 | over all runs, exactly when an update gets each answer, by what has happened since it began: RolledBack if and only if the candidate failed, the restored record was saved and, if an engine had been running, the old version was started again after the failure and then found alive; likewise for Applied, StopRejected, PackageRejected and PreflightRejected |
| RuntimeAnswers.AnswerRecord | src/update/UpdateManager.cpp:436-475 | over all runs, the whole record that each answer leaves, field by field |
| RuntimeAnswers.StopIsSafe | src/update/UpdateManager.cpp:350-382 | over all runs, when an update is about to stop the engine, its candidate has verified and is on record as pending, and the running version is embedded or has been found to verify since |
| RuntimeAnswers.LeftoverIsStopped | src/update/UpdateManager.cpp:458 | over all runs, before the old record is restored, a candidate that still runs is ended if it is seen and its stop works |
| RuntimeAnswers.UpdateSucceeds | src/update/UpdateManager.cpp:235-445 | an update whose calls all work is applied after ten steps, from any disk and engines: the candidate is committed, selected, and its engine has taken the place of the managed one |
| RuntimeStartup.StartupSpares | src/app/App.cpp:63-137 | over all runs, while a startup is under way the live engines stay the same, or one has exited by itself, or the recorded one was stopped: one of the pending version, or one of the current version whose files were found damaged and which the fallback is about to replace |
| RuntimeStartup.StartupExactly | src/app/App.cpp:55-166 | a startup whose calls all work, over an engine of the current or pending version or none, ends after eight steps: ready with the current version if that is embedded or verifies, else with the recorded fallback if that is embedded or verifies, with the whole record as it should be; it is refused with NoFallback only if none is recorded |
| RuntimeLockout.TameStep | src/app/App.cpp:63-134 | without the seven faults each step keeps: the recorded engine, if alive, runs the current or the pending version, and no startup has been refused over it; a record may be lost, by a manager or by a stop |
| RuntimeLockout.TameRun | src/app/App.cpp:63-134 | so it is after any run without the seven faults that starts clean, crashes anywhere included |
| RuntimeLockout.AmbiguousCommitLocks | src/update/UpdateManager.cpp:436-445 | a commit save that takes effect and reports failure leads to a refused start |
| RuntimeLockout.FailedStopLocks | src/update/UpdateManager.cpp:458-465 | a candidate that cannot be stopped leads to a refused start, because the rollback clears the pending version |
| RuntimeLockout.SecondUpdateLocks | src/update/UpdateManager.cpp:350-416 | an update begun beside an engine that the manager no longer holds leads to a refused start |
| RuntimeLockout.UnseenQueryLocks | src/update/UpdateManager.cpp:349 | an update whose manager does not see its live engine commits beside it, and the next start is refused |
| RuntimeLockout.UnreadRecordLocks | src/core/ProcessManager.cpp:463-490 | a recovery that cannot read the process record of the started candidate clears the pending mark, and the same startup is refused over the candidate |
| RuntimeLockout.KeptStopLocks | src/core/ProcessManager.cpp:378-383 | a recovery that takes the live candidate for a dead one, and cannot delete its record, clears the pending mark and is refused over the candidate |
| RuntimeLockout.FailedReadLocks | src/app/App.cpp:159-163 | a launch that cannot read which version to select takes the embedded one and is refused over the engine of the current one |
| RuntimeLockout.FaultLocks | src/update/UpdateManager.cpp:235-482 | each of the seven faults alone suffices, from a clean start |
| RuntimeLockout.NeverLockedOutExactly | src/app/App.cpp:63-163 | no run ever refuses a start over the image of the recorded engine, if and only if saves are all-or-nothing, stops succeed, no update begins beside an engine the manager lost, launches can read the state, new managers can read and confirm the process record or else delete it, managers see the engine they hold, and a stop that takes a live engine for dead deletes its record |
| RuntimeEngines.AloneRun | src/update/UpdateManager.cpp:393-433 | without the four faults of sight, at most one engine is alive after any run, and it is the recorded one wherever an update or a connect relies on that |
| RuntimeEngines.UnseenQueryDoubles | src/core/Launcher.cpp:195-245 | a connect that does not see the engine it holds starts another |
| RuntimeEngines.StartToBoth | src/update/UpdateManager.cpp:429-433 | a stop that takes the old engine for a dead one lets the update start the candidate beside it |
| RuntimeEngines.StartToDoubled | src/core/Launcher.cpp:195-245 | a connect that misses an engine in the list of processes starts another beside it |
| RuntimeEngines.OneEngineExactly | src/update/UpdateManager.cpp:393-433 | whatever else a run contains, two engines are never alive at once, if and only if managers see the engine they hold, no stop takes a live engine for a dead one, and the list of processes is complete |
| RuntimeEngines.HeldRun | src/core/ProcessManager.cpp:60-83 | if moreover new managers read and confirm the record, it names the engine after any run, and no startup succeeds beside an engine of another version |
| RuntimeEngines.FaultLetsPass | src/app/App.cpp:159-163 | each of the six faults alone suffices for a startup that succeeds beside an engine of another version |
| RuntimeEngines.NoStrangerExactly | src/app/App.cpp:159-163 | a startup never succeeds beside an engine of a version other than the selected one, if and only if none of these six happens |
| RuntimeCleanup.CandidateIsNew | src/update/UpdateManager.cpp:271-279 | in every update that a run reaches from a record in order, the candidate is neither the current version nor the fallback, whatever their numbers |
| RuntimeCleanup.RunPresent | src/update/UpdateManager.cpp:303-320 | over any run, every version that verifies has a directory of its folded name |
| RuntimeCleanup.StandingAfter | src/update/UpdateManager.cpp:303-482 | at every point of an update without outside damage, any version but the candidate verifies if and only if it did at the start and does not share the directory of the candidate, or the update has not stepped yet |
| RuntimeCleanup.UpdateKeepsExactly | src/update/UpdateManager.cpp:303-482 | over every run, from the first step of an update up to its end or crash, the current runtime and the fallback keep verifying if and only if neither folds to the name of the candidate |
| RuntimeCleanup.AliasLosesCurrent | src/update/UpdateManager.cpp:303-312 | a concrete run without any fault: from current 1-RC, starting the update to 1-rc removes the current runtime, and if the launcher ends there its next start is refused |
| RuntimeCleanup.FoldedAlias | src/update/UpdateManager.cpp:271-304 | the check against downgrades admits such a pair: 1-rc is newer than 1-RC and shares its directory |
| RuntimeCleanup.CleanedKeeps | src/core/ResourceExtractor.cpp:599-609 | whatever the listing and wherever a removal fails, a version of the keep set verifies as before |
| RuntimeCleanup.CleanedRemoves | src/core/ResourceExtractor.cpp:599-609 | a listed version outside the keep set is gone after a complete cleanup |
| RuntimeCleanup.CleanedRemovesAtLeast | src/core/ResourceExtractor.cpp:599-609 | the same for every bound on the removals that is not reached |
| RuntimeCleanup.KeepSetHas | src/core/ResourceExtractor.cpp:560-573 | the keep set holds exactly the embedded, selected, current, fallback, pending and running versions |
| RuntimeCleanup.CleanupIsInvisible | src/core/ResourceExtractor.cpp:575-615 | after a cleanup of any listing, complete or stopped anywhere, every later run of startups, crashes, exits and damage ends in the same decision, record and engines as without it |
| UpdateManager.Transaction.StopHook | src/update/UpdateManager.cpp:429-433 | stopping the old engine is the machine step from StopCurrent, also when a live engine is taken for a dead one, or the answer StopRejected |
| UpdateManager.Transaction.StartCandidateHook | src/update/UpdateManager.cpp:393-416 | starting the candidate is a machine step, which records it in place of any other engine, and a failed start may cost the record |
| UpdateManager.Transaction.CandidateHealthHook | src/update/UpdateManager.cpp:417-424 | the health answer is the machine step before the commit |
| UpdateManager.Transaction.CommitHook | src/update/UpdateManager.cpp:436-445 | the state saved is the committed record of the machine; a failed save leads to the rollback whether it took effect or not |
| UpdateManager.Transaction.StopCandidateFirst | src/update/UpdateManager.cpp:396-400 | the previous engine is started only after the candidate is known to be gone |
| UpdateManager.Transaction.StartPreviousHook | src/update/UpdateManager.cpp:393-416 | the restart of the previous runtime follows the machine, with nothing to do when no engine ran |
| UpdateManager.Transaction.PreviousHealthHook | src/update/UpdateManager.cpp:417-424 | true exactly when nothing was running or the old version, started again, was found alive |
| UpdateManager.Transaction.Prepare | src/update/UpdateManager.cpp:303-320 | an old directory is removed and the package extracted, each as a machine step, or the answer is a rejection |
| UpdateManager.Transaction.VerifyCandidate | src/update/UpdateManager.cpp:321-350 | only a candidate whose files verify goes on; otherwise it is discarded and rejected |
| UpdateManager.Transaction.RecordPending | src/update/UpdateManager.cpp:351-382 | the pending record is saved, and an installed runtime that runs must verify before it is stopped |
| UpdateManager.Transaction.VerifyPreviousRuntime | src/update/UpdateManager.cpp:368-382 | if the previous runtime is damaged the pending mark is cleared, and failing to do so is RollbackFailed |
| UpdateManager.Transaction.StopLeftoverCandidate | src/update/UpdateManager.cpp:458 | a candidate that still runs, and is seen to, is stopped before the old record is restored |
| UpdateManager.Transaction.RestoreState | src/update/UpdateManager.cpp:458-481 | every failed activation ends in the answer of the machine for it |
| UpdateManager.Transaction.SaveRestoredState | src/update/UpdateManager.cpp:459-481 | the restored record is saved, and a failed save turns the answer into RollbackFailed |
| UpdateManager.Transaction.Rollback | src/update/RuntimeActivation.cpp:17-25 | RolledBack exactly when nothing was running, or since the candidate failed the previous runtime was started again and then found alive |
| UpdateManager.Transaction.ActivateRuntime | src/update/RuntimeActivation.cpp:5-45 | each answer of the activation corresponds to one step of the machine, for every outcome of every hook |
| UpdateManager.Transaction.ApplyPayload | src/update/UpdateManager.cpp:235-482 | the whole update, with exits and damage between any two effects, is a run of the machine and ends with at most one engine as long as every engine was seen; it has no effect exactly when it is not trusted, the state is unreadable or the candidate is not newer; otherwise each answer is given exactly when what it says has happened, as in `RuntimeAnswers.AnswerExactly`, and says what is current and selected now |
| App.Launcher.RecoverPending | src/app/App.cpp:63-93 | whichever version was selected, an interrupted update is never promoted: its engine is stopped if the new manager holds it, the mark is cleared, and an unknown engine refuses the start; the process record may be unreadable or lost; an engine of the current version is spared by `RuntimeStartup.StartupSpares` |
| App.Launcher.AcceptState | src/app/App.cpp:59-93 | the second read: an unreadable state refuses the start, an interrupted update is recovered, and any other state goes on |
| App.Launcher.CheckIntegrity | src/app/App.cpp:94-143 | the selected runtime must verify, or the fallback is committed and selected, or the start is refused |
| App.Launcher.RollbackToFallback | src/app/App.cpp:104-137 | the fallback becomes current only after it was prepared and the engine reconciled |
| App.Launcher.PrepareFallback | src/app/App.cpp:104-116 | the embedded fallback is extracted again, an installed one must verify |
| App.Launcher.Finish | src/app/App.cpp:151-165 | the last check leaves the state alone and, if the new manager holds an engine and sees it, accepts only one of the selected version |
| App.Launcher.ReconcileEngine | src/app/RuntimeRecovery.cpp:30-38 | an engine that the new manager holds, other than the fallback, must be the failed current one, and must be reported stopped, before the fallback is committed |
| App.Launcher.Startup | src/app/App.cpp:55-166 | the constructor, with its two reads of the state, is a run of the machine from any disk and any engines; success means nothing pending, the version of `RuntimeSafety.RunChoice` selected, an engine of that version if its manager holds one and sees it, and no other engine as long as none was forgotten; if its calls all work it ends as in `RuntimeStartup.StartupExactly`; a refusal is the one the machine gives |
| App.Settled | src/app/App.cpp:144-166 | a run that has passed the last check of a startup has nothing pending and has selected the current version, or the embedded one after a failed first read |
| App.CleanupOldVersions | src/core/ResourceExtractor.cpp:575-615 | the deletion loop removes exactly the listed directories outside the keep set, up to the first removal that fails, and touches nothing when there is no readable state |
| Utf8.EncodeExact | src/util/Json.cpp:20-36 | every Unicode scalar value is encoded as one well-formed character of RFC 3629 that decodes to it |
| Utf8.DecodeExact | src/util/Json.cpp:207-242 | every well-formed character is the encoding of the scalar value it decodes to |
| Utf8.Classified | src/util/Json.cpp:213-239 | accumulating the bits and checking the range afterwards accepts exactly the table of byte ranges in section 4 of RFC 3629 |
| Utf8.CopyValidatedUtf8 | src/util/Json.cpp:207-242 | the check accepts exactly the multi-byte characters of RFC 3629, with their length |
| Utf8.WellFormedConcat | src/util/Json.cpp:20-36 | well-formed texts can be put together |
| JsonTokens.NumberSplit | src/util/Json.cpp:312-347 | an accepted number is one of the grammar of section 6 of RFC 8259, and the value keeps its text |
| JsonTokens.NumberOver | src/util/Json.cpp:312-347 | every number of the grammar is read whole when no character follows that would continue it |
| JsonTokens.UnicodeEscapeOver | src/util/Json.cpp:277-302 | an escape, or a surrogate pair of escapes, gives the encoding of its code point |
| JsonTokens.CharacterSplit | src/util/Json.cpp:247-306 | what the string loop accepts is a plain character, an escape or a proper surrogate pair, with the meaning the grammar gives it |
| JsonTokens.CharacterOver | src/util/Json.cpp:247-306 | each such piece is accepted, with that meaning |
| JsonTokens.StringSplit | src/util/Json.cpp:244-310 | an accepted string is a quoted list of pieces and the value is what they mean |
| JsonTokens.StringOver | src/util/Json.cpp:244-310 | every quoted list of pieces is read whole as what it means |
| JsonTokens.MeaningWellFormed | src/util/Json.cpp:244-310 | whatever its escapes, a string of the grammar means well-formed UTF-8 |
| JsonExact.ValueSound | src/util/Json.cpp:88-182 | an accepted value is the text of a syntax tree within the depth and value limits, and has the meaning of the tree; keys are distinct |
| JsonExact.ValueOver | src/util/Json.cpp:88-182 | the text of every such tree is accepted with that meaning, and the counter grows by its number of values |
| JsonExact.ParseSound | src/util/Json.cpp:42-64 | an accepted input is a document of the grammar within the three limits |
| JsonExact.ParseComplete | src/util/Json.cpp:42-64 | every such document is accepted with the value of its tree |
| JsonExact.ParseExact | src/util/Json.cpp:42-347 | the parser returns a value for an input if and only if the input derives from the grammar of RFC 8259 (optional byte order mark, well-formed UTF-8, no lone surrogate, no duplicate key, within byte, depth and value limits) with that value; so no text has two meanings |
| JsonParser.Parser.SkipWhitespace | src/util/Json.cpp:80-86 | moves over exactly the blanks of the grammar |
| JsonParser.Parser.Consume | src/util/Json.cpp:184-188 | moves over one expected character or not at all |
| JsonParser.Parser.ParseLiteral | src/util/Json.cpp:119-126 | reads a literal name as the specification does |
| JsonParser.Parser.ParseHex4 | src/util/Json.cpp:190-205 | four hexadecimal digits in any case are read as their value |
| JsonParser.Parser.ParseUnicodeEscape | src/util/Json.cpp:277-302 | surrogates are paired or refused as in the specification |
| JsonParser.Parser.ParseEscape | src/util/Json.cpp:263-306 | the character after a backslash is read as the specification does |
| JsonParser.Parser.ParseCharacter | src/util/Json.cpp:247-307 | one pass of the string loop is the specification step |
| JsonParser.Parser.ParseString | src/util/Json.cpp:244-310 | the string loop computes the specification of a string |
| JsonParser.Parser.ParseNumber | src/util/Json.cpp:312-347 | the number is read as the specification does, with the rest unread |
| JsonParser.Parser.ParseScalar | src/util/Json.cpp:104-115 | strings, literals and numbers are told apart by their first character |
| JsonParser.Parser.ParseArray | src/util/Json.cpp:164-182 | the array loop agrees with the specification in value, rest and counter |
| JsonParser.Parser.ParseObject | src/util/Json.cpp:128-162 | the object loop agrees with the specification, duplicate keys refused |
| JsonParser.Parser.ParseKey | src/util/Json.cpp:134-145 | a key with its colon and the blanks around it |
| JsonParser.Parser.ParseValue | src/util/Json.cpp:88-117 | the mutual recursion terminates and agrees with the specification in value, rest and counter |
| JsonParser.Parser.Run | src/util/Json.cpp:42-64 | the object run on an input gives exactly `Parse`, the function that `JsonExact.ParseExact` is about |
| JsonValues.CountIsNodes | src/util/Json.cpp:93-96 | the count of a syntax tree is the number of values in its meaning |
| JsonValues.CounterExact | src/util/Json.cpp:93-96 | on success the counter is the number of nodes of the result, so the limit bounds every result |
| JsonValues.ParsedIsUtf8 | src/util/Json.cpp:42-347 | no key and no text in a parsed value is ill-formed UTF-8 |
| JsonValues.AsUInt64Exact | src/util/Json.cpp:359-366 | a number of the grammar converts to k if and only if its text is the decimal numeral of k and k is below 2^64 |
| JsonQuote.AppendQuoted | src/util/Json.cpp:393-409 | one character appended as its quoted form |
| JsonQuote.QuoteText | src/util/Json.cpp:387-413 | the loop builds the specification of the quoted text |
| JsonQuote.ParseOfQuote | src/util/Json.cpp:387-413 | parsing a quoted text gives the text back if it is well-formed UTF-8 and the quoted form is within the limits, and is refused otherwise |
| JsonQuote.QuoteSize | src/util/Json.cpp:387-413 | quoting makes a text at most six times as long, plus the quotes |
| JsonUtf8.AcceptedIsUtf8 | src/util/Json.cpp:42-347 | an accepted input is well-formed UTF-8 as a whole |
| JsonUtf8.AcceptedPrint | src/util/Json.cpp:387-413 | a printed object that the parser accepts holds well-formed texts only |
| JsonPrinter.PrintedExact | src/config/Config.cpp:155-182 | a printed object is the text of a syntax tree whose meaning is the object, with the depth and the number of values it shows |
| JsonPrinter.PrintedParses | src/config/Config.cpp:155-182 | a printed object within the limits parses to itself |
| RuntimeStateStore.LoadTexts | src/update/RuntimeStateStore.cpp:76-87 | the loop fills the five optional fields; null and missing are empty, any other type refuses |
| RuntimeStateStore.LoadRuntimeState | src/update/RuntimeStateStore.cpp:60-109 | the loader computes the function `Loaded`, about which the next rows speak |
| RuntimeStateStore.LoadedExactly | src/update/RuntimeStateStore.cpp:60-109 | with every limit written out: a state is read if and only if the bytes are a JSON text of at most 64 KiB, 8 levels and 64 values that means an object of seven members with schema 1 and these fields, each valid |
| RuntimeStateStore.LoadedIsAccepted | src/update/RuntimeStateStore.cpp:88-109 | a state read from any bytes is one that would be accepted for writing, and its fields are UTF-8 |
| RuntimeStateStore.StateSize | src/update/RuntimeStateStore.cpp:112-123 | an accepted state is always written within the 64 KiB that the loader reads |
| RuntimeStateStore.LoadOfSave | src/update/RuntimeStateStore.cpp:112-144 | reading back a serialized state gives it back if the writer accepts it and its two free texts are well-formed UTF-8, and gives nothing otherwise |
| RuntimeStateStore.UnreadableSave | src/update/RuntimeStateStore.cpp:125-144 | a state that the writer accepts and that no start can read: a stray continuation byte in last_result makes the loader give nothing |
| Configuration.ReadUi | src/config/Config.cpp:111-127 | each switch and choice is taken only when it is present with a valid value, otherwise the default stays |
| Configuration.ReadUpdate | src/config/Config.cpp:129-149 | the same for the update settings, where an unknown mode falls back to notify |
| Configuration.ParseConfig | src/config/Config.cpp:74-153 | the reader computes the function `Read`, about which the next rows speak |
| Configuration.ReadExactly | src/config/Config.cpp:74-153 | with every limit and default written out: a configuration is read if and only if the text is JSON within the limits and means an object that says it: a strategy, one of four game filters or the old boolean, and settings taken only when valid |
| Configuration.GameFilterReadsBack | src/config/Config.cpp:26-52 | the name of every filter mode is read as that mode |
| Configuration.UpdateModeReadsBack | src/config/Config.cpp:34-62 | the name of every update mode is read as that mode |
| Configuration.ReadIsValid | src/config/Config.cpp:74-153 | whatever the file held, a configuration that is read is valid |
| Configuration.ReadOfSerialize | src/config/Config.cpp:155-182 | reading a printed configuration gives it back if and only if it is valid and its text is within 1 MiB |
| ProcessRecords.TrimText | src/util/StringUtil.cpp:75-81 | removes exactly the blanks at both ends |
| ProcessRecords.ReadField | src/core/ProcessManager.cpp:501-526 | one line is a known, not yet seen, well-formed field, or refuses the record |
| ProcessRecords.LoadRecord | src/core/ProcessManager.cpp:494-528 | the line loop computes the function `Loaded` on every content |
| ProcessRecordFormat.LoadedExactly | src/core/ProcessManager.cpp:463-528 | a file is read as a record if and only if it has at most 8 KiB and three lines, in any order, that without blanks around them give its number, creation time and image, each once |
| ProcessRecordFormat.TrimmedExactly | src/core/ProcessManager.cpp:502 | what is trimmed are blanks, tabs, carriage returns and line feeds at both ends, all of them |
| ProcessRecords.LoadOfSave | src/core/ProcessManager.cpp:531-541 | loading a saved record gives it back if and only if the image has at most 1024 bytes and does not end in a blank or tab |
| CommandLine.CountBackslashes | src/util/CommandLine.cpp:15-18 | counts the run of backslashes |
| CommandLine.AppendPiece | src/util/CommandLine.cpp:23-30 | a run of backslashes and the character after it are written in escaped form |
| CommandLine.QuoteArgvW | src/util/CommandLine.cpp:5-34 | the loop computes the specification `Quote` |
| CommandLine.QuoteExactly | src/util/CommandLine.cpp:5-34 | an argument is written unchanged if and only if it is not empty and holds no blank, tab, line feed, vertical tab or quote; any other stands between quotes |
| CommandLine.Build | src/util/CommandLine.cpp:36-43 | the loop computes the specification `Line` |
| CommandLine.ReadQuoted | src/util/CommandLine.cpp:5-34 | the documented argument rules read any quoted text back whole and stop behind it |
| CommandLine.ReadTail | src/util/CommandLine.cpp:36-43 | and so a whole list of arguments, each once and in order |
| CommandLine.ReadProgramExact | src/util/CommandLine.cpp:36-43 | the different rule for the program name reads it back if and only if it holds no quote and, when quoted, ends in no backslash |
| CommandLine.ArgvOfLine | src/util/CommandLine.h:7-15 | for all texts of 16-bit code units, splitting the built line by the CommandLineToArgvW rules, under either reading of a doubled quote, gives exactly the program and the arguments if and only if nothing holds a NUL and the program can be written without escapes |
| Crc.ShiftLinear | src/app/Diagnostics.cpp:503 | the shift step is linear over exclusive or |
| Crc.TableStep | src/app/Diagnostics.cpp:512 | one table lookup does the work of eight single-bit steps of section 8 of RFC 1952 |
| Crc.EightShifts | src/app/Diagnostics.cpp:502-504 | the inner loop applies the shift step eight times |
| Crc.GenerateTable | src/app/Diagnostics.cpp:494-508 | slot k of the table holds the register that eight steps make of k |
| Crc.Crc32 | src/app/Diagnostics.cpp:493-515 | on every byte string the table-driven loop equals the bit-at-a-time CRC-32 |
| Crc.CheckValue | src/app/Diagnostics.cpp:493-515 | the check value of CRC-32: the digits 1 to 9 give CBF43926 |
| Zip.PutU16 | src/app/Diagnostics.cpp:519-522 | two bytes, low one first |
| Zip.PutU32 | src/app/Diagnostics.cpp:524-529 | four bytes, low one first |
| Zip.ReadBytes | src/app/Diagnostics.cpp:519-529 | a record of fields is read back from its bytes |
| Zip.PutLocal | src/app/Diagnostics.cpp:560-570 | the local header of section 4.3.7 of APPNOTE.TXT, field by field |
| Zip.PutCentral | src/app/Diagnostics.cpp:574-590 | the directory header of section 4.3.12, field by field |
| Zip.PutEnd | src/app/Diagnostics.cpp:598-605 | the end record of section 4.3.16, field by field |
| Zip.AppendEntry | src/app/Diagnostics.cpp:554-591 | an entry adds its local part to the archive and its directory part, with the given offset, to the directory |
| Zip.BuildArchive | src/app/Diagnostics.cpp:535-605 | the loop over two buffers, a 32-bit offset and a 16-bit count computes `Archive`, and refuses exactly the empty list and entries with a forbidden name or size |
| ZipReader.ReadLocalPart | src/app/Diagnostics.cpp:560-572 | a reader finds the entry behind its local header, with name, size, content and matching CRC |
| ZipReader.LocalFields | src/app/Diagnostics.cpp:560-572 | the fields of a local header, number by number |
| ZipReader.ReadCentralPart | src/app/Diagnostics.cpp:574-591 | a reader finds name, size, CRC and offset in a directory header |
| ZipReader.CentralFields | src/app/Diagnostics.cpp:574-592 | the fields of a file header of the directory, number by number |
| ZipReader.EndFields | src/app/Diagnostics.cpp:598-607 | the fields of the end record, number by number |
| ZipReader.ReadAll | src/app/Diagnostics.cpp:543-595 | each directory offset points at the own local header of its entry, so the entries are read in order |
| ZipReader.FindsEnd | src/app/Diagnostics.cpp:596-605 | searching backwards, the first end record found is the one that was written |
| ZipReader.DirectoryAt | src/app/Diagnostics.cpp:596-605 | the directory lies where the end record says |
| ZipReader.ReadOfArchive | src/app/Diagnostics.cpp:533-605 | for archives below 4 GiB, a reader following APPNOTE.TXT recovers exactly the entries, names and order, if and only if there are fewer than 65535 of them |
| UpdatePackage.CheckComponent | src/update/UpdatePackage.cpp:28-42 | a component is refused exactly when it is empty, a dot name, ends in a blank or dot, holds a forbidden character or names a device |
| UpdatePackage.RebuildPath | src/update/UpdatePackage.cpp:23-47 | the loop accepts exactly paths of safe components and rebuilds the path it was given |
| UpdatePackage.NormalizePackagePath | src/update/UpdatePackage.cpp:18-52 | an accepted path is its own normal form, has only safe components and is on the allow list; any other is refused |
| PackagePaths.PathExactly | src/update/UpdatePackage.cpp:18-52 | a path is accepted if and only if it has at most 240 characters and is a list of portable names, none of the 22 devices, below bin or lists or one of three files |
| UpdatePackage.RunningExact | src/update/UpdatePackage.cpp:81-86 | with the file limit within the total limit, the 64-bit running total is the true total, and a true total over the limit is refused |
| PackageTotals.TotalsExactly | src/update/UpdatePackage.cpp:81-86 | the running total is exact on every list of valid entries if and only if the file limit is within the total limit |
| PackageTotals.AcceptedTotalsExactly | src/update/UpdatePackage.cpp:54-105 | every accepted list stays within the total limit in true arithmetic if and only if the file limit does, or fewer than four files are allowed and nothing is accepted |
| PackageTotals.WrapUnnoticed | src/update/UpdatePackage.cpp:81-86 | for every other choice of limits, the four mandatory files, each one byte above the total limit, are accepted |
| UpdatePackage.CheckEntry | src/update/UpdatePackage.cpp:65-93 | one pass of the loop, with the 64-bit comparison of the source |
| UpdatePackage.ValidatePackageEntries | src/update/UpdatePackage.cpp:54-105 | accepts exactly lists of allowed size whose entries are valid, pairwise different up to case, within the running total, with the four mandatory files |
| PackageFile.ReadHeader | src/update/UpdatePackage.cpp:147-192 | the framing of the file: size, magic, header size and an object of six members |
| PackageFile.ScanItems | src/update/UpdatePackage.cpp:193-222 | the entry loop with its wrapping offset computes the specification, and finds the last runtime manifest |
| PackageFile.ParsePackageFile | src/update/UpdatePackage.cpp:143-241 | the parser computes the function `Parsed` on every file content |
| PackageFormat.ScanExactly | src/update/UpdatePackage.cpp:190-224 | the entry loop accepts exactly lists of objects of five members whose offsets are the totals of the sizes before, with room in the limit for each |
| PackageFormat.SoundExactly | src/update/UpdatePackage.cpp:54-105 | acceptable entries are exactly those with sound paths, sizes and hashes, pairwise different, with room for each and the four mandatory files |
| PackageFormat.ParsedExactly | src/update/UpdatePackage.cpp:143-241 | a file parses to a package if and only if it is the magic, the little-endian size of a header, a JSON header of six members that describes the package field by field, and contents that fill it; every limit is written out |
| PackageFile.ScanIsRunning | src/update/UpdatePackage.cpp:216-220 | the expected offset is the running total of the sizes |
| PackageFile.EntriesTile | src/update/UpdatePackage.cpp:193-238 | in an accepted package the entries lie one after another from the data offset exactly to the end of the file, in true arithmetic |
| PackageFile.ContentsAreTheFile | src/update/UpdatePackage.cpp:193-238 | put together, the contents of the entries are the rest of the file |
| PackageExtract.IdentityExact | src/update/UpdatePackage.cpp:134-139 | two package paths name the same Windows file exactly when they are equal up to case |
| PackageExtract.ExtractEntry | src/update/UpdatePackage.cpp:287-311 | one pass writes one entry and keeps all earlier ones |
| PackageExtract.ExtractPackage | src/update/UpdatePackage.cpp:252-315 | on success every entry is there with the bytes and hash of its own slice, none overwritten, and nothing else; if no call fails it succeeds exactly when the file holds every slice with its hash |
| PackageExtract.VerifyExtractedPackage | src/update/UpdatePackage.cpp:317-342 | answers exactly whether every entry is there with its size and hash |
| PackageExtract.ExtractedVerifies | src/update/UpdatePackage.cpp:252-342 | what was extracted from an accepted file verifies, and is that file entry by entry |
| UpdateCheckService.InvStep | src/update/UpdateCheckService.cpp:29-87 | every atomic step of the owner and of the worker keeps the invariant on mutex, phase, result and deliveries |
| UpdateCheckService.InvRun | src/update/UpdateCheckService.cpp:29-87 | so it holds under every interleaving |
| UpdateCheckService.Deliveries | src/update/UpdateCheckService.cpp:29-68 | each check is delivered at most once, in the order of the starts and as it was produced; Ready means a stored result of the latest start; the worker is never joined with the mutex held |
| UpdateCheckService.NotLost | src/update/UpdateCheckService.cpp:43-57 | the result of a finished worker waits unless it was taken or a new start or the cancellation came |
| UpdateCheckService.StartExactly | src/update/UpdateCheckService.cpp:31-63 | under every interleaving Start has started one worker when it returns if none had been or the last result was taken, and none otherwise |
| UpdateCheckService.TakeExactly | src/update/UpdateCheckService.cpp:65-72 | when no check is running, TryTakeResult hands out exactly the waiting result of the latest start, and nothing if none waits |
| UpdateCheckService.CancelStops | src/update/UpdateCheckService.cpp:75-81 | when Cancel returns no worker is alive and the phase is Cancelled |
| UpdateCheckService.StoppedForever | src/update/UpdateCheckService.cpp:29-81 | from then on, whatever is called, no worker starts, no check runs, nothing is delivered and the phase stays |
| UpdateCheckService.NoDeadlock | src/update/UpdateCheckService.cpp:83-87 | while a call has not returned, one of the two threads can move |
| UpdateCheckService.StepsAreFewer | src/update/UpdateCheckService.cpp:29-87 | every step of either thread decreases a measure |
| UpdateCheckService.CallsReturn | src/update/UpdateCheckService.cpp:29-87 | so a call returns after at most 14 steps of the two threads, however they are scheduled |
| ProcessManager.ExpectedExactly | src/core/ProcessManager.cpp:80-91 | up to case, the accepted images are the runtime root followed by a path ending in bin\winws.exe, and the two overlapping forms that the suffix comparison also lets through |
| ProcessManager.Manager.Rollback | src/core/ProcessManager.cpp:244-256 | closing the kill-on-close job ends a child inside it even when terminating it failed; job and record are given up |
| ProcessManager.Manager.Start | src/core/ProcessManager.cpp:109-340 | at every moment of a start, a launcher that ends leaves no running engine or one that the record names; a failure leaves none, and once the child was in the job it is dead; success leaves a child of the asked image that was found alive after the wait and is on record, and it is reached whenever no call fails and the child does not exit |
| ProcessManager.Manager.Launch | src/core/ProcessManager.cpp:258-339 | the same from the creation of the suspended child on |
| ProcessManager.Manager.Commit | src/core/ProcessManager.cpp:281-339 | the same from the resumption on: the job lets the child go only after record and identity |
| ProcessStop.IdentityMatches | src/core/ProcessManager.cpp:342-350 | a match means that the process with that number has the recorded image |
| ProcessStop.Stopper.Stop | src/core/ProcessManager.cpp:359-440 | with any exits, starts and reuse of numbers between the queries, at most one process is ended, it has the recorded number, creation time and image; Stopped means that it was ended, NotRunning gives a valid record up only when no process has the number or a live one was taken for dead; and a recorded engine that stays alive is stopped whenever no call fails |
| ProcessStop.SameImageExpected | src/core/ProcessManager.cpp:406-407 | images equal up to case are accepted alike |
| RuntimeInventory.PrefixDirectories | src/core/ResourceExtractor.cpp:177-179 | the loop finds exactly the proper prefixes at separators |
| RuntimeInventory.AllowedSets | src/core/ResourceExtractor.cpp:172-180 | the two sets decide exactly whether a file or a directory is allowed |
| RuntimeInventory.VisitDirectory | src/core/ResourceExtractor.cpp:199-213 | one listing: everything in it is allowed and its directories are queued, or a fault or the object limit stops the walk |
| RuntimeInventory.CoveredAll | src/core/ResourceExtractor.cpp:183-220 | when the worklist is empty every object at any depth of the tree has been visited and allowed |
| RuntimeInventory.SeenNext | src/core/ResourceExtractor.cpp:199-213 | listing a directory adds each of its objects to the count once |
| RuntimeInventory.CountedWhole | src/core/ResourceExtractor.cpp:183-220 | when the worklist is empty, a count within the limit means that the tree holds no more objects |
| RuntimeInventory.CountedTooMany | src/core/ResourceExtractor.cpp:205 | a count above the limit means that the tree holds more objects than that |
| RuntimeInventory.ValidateRuntimeInventory | src/core/ResourceExtractor.cpp:169-222 | the walk terminates on every tree and accepts if and only if the root is valid, everything in the tree is allowed and listed, and it holds at most 1024 objects |
| RuntimeInventory.FaultyExactly | src/core/ResourceExtractor.cpp:183-220 | a tree is faulty exactly when a directory cannot be listed, or an object is a link, fails its own checks, is a file that is not listed, or is a directory that no listed file is under |
| RuntimeVerify.SafeRuntimeRelativePath | src/core/ResourceExtractor.cpp:95-129 | accepts exactly safe, allow-listed paths and gives their Windows form |
| RuntimeVerify.VerifyFiles | src/core/ResourceExtractor.cpp:407-441 | accepts exactly a list that describes files that are all there with size and hash and all different up to case |
| RuntimeVerify.VerifyInstalledRuntime | src/core/ResourceExtractor.cpp:371-458 | a runtime that verifies is installed in the sense of `RuntimeVerify.HoldsExactly` and holds exactly those files and the manifest; one that does not has a failed outcome, more than 1024 objects, no list of files that makes it installed, or an object that the list does not allow |
| RuntimeVerify.HoldsExactly | src/core/ResourceExtractor.cpp:390-448 | with every limit written out: the manifest is a JSON text within the limits for exactly this version, lists one to 256 different files by path, size and hash, all of them are there with their bytes, and the three mandatory ones are among them |
| RuntimeVerify.RuntimePathExactly | src/core/ResourceExtractor.cpp:95-130 | a path of the manifest is accepted exactly when its folded form is a package path |
| RuntimeVerify.ExactlyTheInventory | src/core/ResourceExtractor.cpp:442-447 | a fault-free tree whose listed files are there holds exactly the inventory |
| Strategies.ReplaceAll | src/config/Strategies.cpp:17-24 | the in-place loop terminates and is the left-to-right replacement of non-overlapping occurrences |
| Strategies.PassExact | src/config/Strategies.cpp:249-255 | on a token cut at its percent signs, a pass is a pass over the parts |
| Strategies.PassesExactly | src/config/Strategies.cpp:237-259 | for tokens of known placeholders, the six passes equal one simultaneous substitution and leave no percent sign if no text between two placeholders clashes, and leave one otherwise |
| Strategies.CleanExactly | src/config/Strategies.cpp:237-259 | whether the passes clash can be read off the token: a placeholder name between two neighbouring pairs that is replaced before the first and not after the second |
| Strategies.PassesResolve | src/config/Strategies.cpp:237-259 | for every token, the six passes leave no percent sign if and only if the token pairs into known placeholders with no such name between two of them, and then give the substitution |
| Strategies.PassesBuild | src/config/Strategies.cpp:233-259 | the same of one token: BIN, LISTS and USER_LISTS stand for their directories with a backslash, GAME_TCP, GAME_UDP and GAME_BOTH for 1024-65535 or 12 by mode |
| Strategies.NoStraddleIsClean | src/config/Strategies.cpp:237-259 | a token in which no placeholder straddles two pairs never clashes |
| Strategies.ParityOfPasses | src/config/Strategies.cpp:249-255 | the passes remove percent signs two at a time |
| Strategies.ValuesAreForeign | src/config/Strategies.cpp:240-245 | directories without percent signs give six values that meet the conditions of the theorems above |
| Strategies.SixPasses | src/config/Strategies.cpp:249-257 | the six calls in order are the passes of the theorems |
| Strategies.BuildArguments | src/config/Strategies.cpp:237-259 | token by token and in order: for directories without percent signs, every token that pairs into known placeholders becomes its text with each of them replaced by the directory or port range it stands for in this mode, and a percent sign is left in any other |
| Strategies.ValidTemplateToken | src/config/Strategies.cpp:107-121 | accepts exactly tokens of allowed length and characters in which erasing the six placeholders leaves no percent sign |
| Strategies.ValidExactly | src/config/Strategies.cpp:107-121 | a token of known placeholders is accepted if and only if it has no two pairs, with only pairs of earlier names between them, whose texts outside the pairs join to a name that comes before the name of the first and not after that of the second |
| Strategies.RefusedThoughResolved | src/config/Strategies.cpp:107-121 | a token that resolves for all values and is refused, because erasing brings a placeholder name together |
| Strategies.AcceptedThoughUnresolved | src/config/Strategies.cpp:107-121 | a token that is accepted and never resolves |
| SecureFs.Stream | src/core/SecureFs.cpp:410-418 | the counting sink never lets more through than announced, and success means the whole content was written |
| SecureFs.AtomicWriteStream | src/core/SecureFs.cpp:375-453 | at every moment the target is the old file or the whole new one of the announced size and hash; success means the new one, and a failure may come after the replacement; it succeeds whenever no call fails and the data is what was announced |

## Left out

- ZipReader.ReadOfArchive: says nothing of archives of 4 GiB and more, where the writer truncates its offsets without a check.
- PackageFile.EntriesTile: requires the file limit within the total limit, as in the limits the launcher uses; `PackageTotals.AcceptedTotalsExactly` shows that the total bound it states needs this.
- RuntimeCleanup.UpdateKeepsExactly: excludes damage to files from outside while the update runs, which can make any version stop verifying.
- ProcessManager.Manager.Start: the process that the manager held before, the standard streams, the attribute list and the command line are not part of it; that the previous handles are closed is left out.
- RuntimeCleanup.CandidateIsNew: requires a first record in which the fallback is older and a pending version newer than the current one, as every record the launcher writes is (`RuntimeInvariant.RunOrdered`); `LoadRuntimeState` does not check it.
- RuntimeStartup.StartupExactly: is about startups whose calls all work, over an engine of the current or of the pending version or none; what a failing call may lead to is in `RuntimeSafety`, `RuntimeLockout` and `RuntimeEngines`.
- ProcessStop.Stopper.Stop: waiting for the end of the process is an outcome; the handles the manager keeps are left out.
- PackageExtract.ExtractPackage: nothing is said of the folder after a failure, since its removal may stop half-way.
- RuntimeVerify.VerifyInstalledRuntime: the ACL checks, the provenance record and the strategy catalogue are outcomes.
- Strategies.PassesResolve: requires values that hold no percent sign and a character no placeholder name has, as all values of `BuildArguments` do for directories without a percent sign.
- UpdateManager.Transaction.ApplyPayload: the check against the authenticated manifest, the staged package and its header are outcomes; `UpdatePackage` and `PackageFile` model the package itself. The branch for a failed preflight hook is not modelled: the hook repeats a check that has passed before.
- UpdateManager.Transaction.Prepare: extraction and verification of the candidate are outcomes with their effect on the disk; a catalogue without a usable strategy counts as failed verification.
- App.Launcher.Startup: migrating and loading the configuration is one outcome; it touches neither the record nor an engine.
- App.CleanupOldVersions: the listing is an input; the refusals before the listing, over an unknown image in the record or an unprotected root, are left out, as they remove nothing.
- RuntimeStateStore.LoadRuntimeState: opening and reading the protected file is not part of it; it starts from the bytes.
- JsonParser.Parser.Run: error texts and error offsets are left out, and the counter of values does not wrap at 2^64.
- Cryptography: SHA-256 is an arbitrary function from bytes to text and a comparison of hashes is equality of texts, up to case where an installed runtime is verified; ECDSA signatures are an outcome.
- Windows objects: handles, ACLs, reparse points, service queries and process creation appear only as outcomes.
- Paths: image and directory identity is ASCII folding; folding of other letters is left out.
- UTF-16: conversions between UTF-8 and UTF-16 are the identity on characters. A Dafny `char` is no half of a surrogate pair, so wide texts with characters beyond 16 bits are covered in `CommandLine` only, whose texts are sequences of 16-bit code units.
- The version of the launcher and the schema numbers, which the build generates, are constants of the model.
- Threads: the owner and the worker of `UpdateCheckService` interleave at lock, unlock, join, store and the check itself, which is a state machine and not a class; memory orders below that are left out, and so is `ShouldNotify`.
- Network: WinHTTP transport, redirects, timeouts, the ETag cache and the fields of the manifest beyond versions and schemas.
- Drawing: console, screens, animations, mascot, progress display and the log.
- Diagnostics: collecting and redacting what is exported, and writing the archive to its file.
- Strategies: reading the catalogue file and the table of embedded strategies.
- Build: release, signing and packaging scripts.
