/** The engine update and the startup recovery as one transition system: what is on disk, which
    engine processes live, and where the launcher stands.  Every external call is an outcome
    carried by an event, and an event of the environment may fall between any two steps. */
module RuntimeModel {
  import opened Texts
  import opened UpdateManifest

  // ---- the world ----------------------------------------------------------------

  datatype Stored = Stored(
    current: string,
    previousKnownGood: string,
    pending: string,
    packageSha256: string,
    manifestKeyId: string,
    lastResult: string)

  datatype StateFile = Missing | Damaged | Record(state: Stored)

  /** `present` holds the folded names of the version directories and `good` the versions whose
      directory holds the files of a manifest for exactly this version. */
  datatype Disk = Disk(record: StateFile, present: set<string>, good: set<string>)

  /** A state save works, fails with the old record in place, or fails after the rename. */
  datatype SaveOutcome = Saved | FailedOld | FailedNew

  /** A stop confirms that the process is gone, fails with it alive, fails although it dies, or
      takes a live process for a dead one: then it answers that nothing runs, and gives the process
      record up, in memory only or on disk as well. */
  datatype StopOutcome = Stopped | FailedAlive | FailedGone | Unseen | UnseenKept

  /** What a new process manager makes of the record of a live engine: it sees the engine, it
      cannot read the record or identify the process, or it cannot identify the process and
      deletes the record. */
  datatype Sight = Seen | Unread | Lost

  /** The outcomes of the calls of one step.  `again` says that a manager which holds the record of
      a live engine sees it when asked, `trusts` that it does so once more, `listed` that the list
      of processes is complete, and `drops` that a start which fails deletes the record. */
  datatype Outcome = Outcome(
    ok: bool,
    second: bool,
    save: SaveOutcome,
    stop: StopOutcome,
    see: Sight,
    again: bool,
    trusts: bool,
    listed: bool,
    drops: bool)

  /** Every call works. */
  const YES: Outcome := Outcome(true, true, Saved, Stopped, Seen, true, true, true, false)

  predicate StopOk(o: StopOutcome) { o == Stopped || o == Unseen || o == UnseenKept }

  function Save(d: Disk, state: Stored, o: SaveOutcome): Disk {
    if o == FailedOld then d else d.(record := Record(state))
  }

  /** The versions whose directory is another one. */
  function Elsewhere(versions: set<string>, version: string): set<string> {
    set v | v in versions && Lower(v) != Lower(version)
  }

  /** A failed removal leaves a directory in which nothing verifies. */
  function Spoiled(d: Disk, version: string): Disk { d.(good := Elsewhere(d.good, version)) }

  function Without(d: Disk, version: string): Disk {
    Spoiled(d, version).(present := d.present - {Lower(version)})
  }

  predicate Verifies(d: Disk, version: string) { version in d.good }

  // ---- the engine processes ------------------------------------------------------

  /** The images of the live engines in the order of their starts.  `named` says that the process
      record on disk names the last of them; any other engine is known to nobody. */
  datatype Engines = Engines(live: seq<string>, named: bool)

  predicate IsNamed(es: Engines) { es.named && es.live != [] }

  /** Stopping ends the recorded process. */
  function StopLast(es: Engines, o: StopOutcome): Engines {
    if !IsNamed(es) || o == FailedAlive || o == UnseenKept then es
    else if o == Unseen then Unnamed(es)
    else Engines(es.live[..|es.live| - 1], false)
  }

  /** A start records the new engine in place of any other. */
  function Joined(es: Engines, image: string): Engines { Engines(es.live + [image], true) }

  function Unnamed(es: Engines): Engines { es.(named := false) }

  /** A start that fails, by a new manager that has looked at the record first. */
  function NotJoined(es: Engines, o: Outcome): Engines { if o.drops then Unnamed(Met(es, o.see)) else Met(es, o.see) }

  /** What a new manager leaves of the record. */
  function Met(es: Engines, see: Sight): Engines { if see == Lost then Unnamed(es) else es }

  predicate Meets(es: Engines, see: Sight) { IsNamed(es) && see == Seen }

  /** The engine at one place has exited. */
  function Exited(es: Engines, i: nat): Engines {
    if i >= |es.live| then es
    else Engines(es.live[..i] + es.live[i + 1..], es.named && i + 1 < |es.live|)
  }

  // ---- where the launcher stands ----------------------------------------------

  datatype Refusal =
    | StateUnreadable | UnknownRuntime | PendingNotStopped | PendingNotCleared | NoFallback
    | FallbackDamaged | CurrentNotStopped | FallbackNotSaved | ConfigNotSaved | WrongEngine

  datatype BootAt =
    | Loaded | StopPending | ClearPending | CheckCurrent | CheckFallback | Reconcile | SaveFallback
    | FinalCheck

  datatype Status =
    | Applied | PackageRejected | PreflightRejected | StopRejected | RolledBack | RollbackFailed

  datatype UpdateAt =
    | RemoveOld | Extract | Verify | SavePending | VerifyPrevious | AbandonPending
    | StopCurrent | StartCandidate | CandidateHealth | Commit
    | StopCandidate | StartPrevious | PreviousHealth
    | StopLeftover(restored: bool) | SaveRolledBack(result: Status) | Done(status: Status)

  /** The local variables of one `ApplyPayload` call.  `owned` says that the candidate's
      manager still holds a process; the last three fields only remember what happened. */
  datatype Update = Update(
    stored: Stored,
    candidate: string,
    sha256: string,
    keyId: string,
    wasRunning: bool,
    owned: bool,
    verified: bool,
    started: bool,
    healthy: bool)

  datatype App =
    | Down
    | Refused(reason: Refusal)
    | Boot(boot: BootAt, loaded: StateFile, choice: string)
    | Ready(selected: string, managed: bool)
    | Updating(at: UpdateAt, update: Update, selected: string, managed: bool)

  datatype Sys = Sys(embedded: string, disk: Disk, engines: Engines, app: App)

  function CurrentOf(embedded: string, record: StateFile): string {
    if record.Record? then record.state.current else embedded
  }

  function CurrentVersion(s: Sys): string { CurrentOf(s.embedded, s.disk.record) }

  /** The process record names a live engine. */
  predicate Running(s: Sys) { IsNamed(s.engines) }

  /** The image of the recorded engine. */
  function Live(s: Sys): string
    requires Running(s)
  {
    s.engines.live[|s.engines.live| - 1]
  }

  // ---- startup: src/app/App.cpp -----------------------------------------------

  datatype PendingAction = NoPending | StopPendingRuntime | ClearPendingOnly | RefuseUnknown

  function DecidePendingRecovery(hasPending: bool, processValid: bool, running: string,
                                 pending: string, current: string): PendingAction {
    if !hasPending then NoPending
    else if !processValid then ClearPendingOnly
    else if SameImage(running, pending) then StopPendingRuntime
    else if SameImage(running, current) then ClearPendingOnly
    else RefuseUnknown
  }

  datatype IntegrityAction = UseEmbedded | UseInstalled | RollbackToPrevious | RefuseStart

  function DecideIntegrityRecovery(embedded: bool, activeVerified: bool, haveState: bool,
                                   havePrevious: bool): IntegrityAction {
    if embedded then UseEmbedded
    else if activeVerified then UseInstalled
    else if !haveState || !havePrevious then RefuseStart
    else RollbackToPrevious
  }

  function BootStep(s: Sys, at: BootAt, loaded: StateFile, choice: string, o: Outcome): Sys {
    match at
    case Loaded =>
      if loaded.Damaged? || !o.ok then s.(app := Refused(StateUnreadable))
      else if !HasPending(loaded) then s.(app := Boot(CheckCurrent, loaded, choice))
      else s.(engines := Met(s.engines, o.see), app := AfterDecision(s, loaded, choice, o.see))
    case StopPending =>
      var s' := s.(engines := StopLast(s.engines, o.stop));
      s'.(app := if StopOk(o.stop) then Boot(ClearPending, loaded, choice) else Refused(PendingNotStopped))
    case ClearPending =>
      if !loaded.Record? then s else
      var state := loaded.state.(pending := "", lastResult := "interrupted-pending-rolled-back");
      s.(disk := Save(s.disk, state, o.save),
         app := if o.save == Saved then Boot(CheckCurrent, loaded, choice) else Refused(PendingNotCleared))
    case CheckCurrent =>
      s.(app := AfterIntegrity(s, loaded, choice, o.ok))
    case CheckFallback =>
      if !loaded.Record? then s else CheckedFallback(s, loaded, choice, o.ok)
    case Reconcile =>
      if !loaded.Record? then s else Reconciled(s, loaded, choice, o)
    case SaveFallback =>
      if !loaded.Record? then s else
      var state := FallbackState(loaded.state);
      s.(disk := Save(s.disk, state, o.save),
         app := if o.save == Saved then Boot(FinalCheck, loaded, loaded.state.previousKnownGood)
                else Refused(FallbackNotSaved))
    case FinalCheck =>
      if !o.ok then s.(app := Refused(ConfigNotSaved))
      else s.(engines := Met(s.engines, o.see),
              app := if Meets(s.engines, o.see) && o.again && !SameImage(Live(s), choice) then Refused(WrongEngine)
                     else Ready(choice, Meets(s.engines, o.see)))
  }

  predicate HasPending(loaded: StateFile) { loaded.Record? && loaded.state.pending != "" }

  function FallbackState(state: Stored): Stored {
    state.(current := state.previousKnownGood, previousKnownGood := "", pending := "",
           lastResult := "startup-integrity-rollback")
  }

  function AfterDecision(s: Sys, loaded: StateFile, choice: string, see: Sight): App
    requires HasPending(loaded)
  {
    var valid := Meets(s.engines, see);
    match DecidePendingRecovery(true, valid, if valid then Live(s) else "", loaded.state.pending, loaded.state.current)
    case NoPending => Boot(CheckCurrent, loaded, choice)
    case StopPendingRuntime => Boot(StopPending, loaded, choice)
    case ClearPendingOnly => Boot(ClearPending, loaded, choice)
    case RefuseUnknown => Refused(UnknownRuntime)
  }

  function AfterIntegrity(s: Sys, loaded: StateFile, choice: string, readable: bool): App {
    match DecideIntegrityRecovery(choice == s.embedded, readable && Verifies(s.disk, choice), loaded.Record?,
                                  loaded.Record? && loaded.state.previousKnownGood != "")
    case UseEmbedded => Boot(FinalCheck, loaded, choice)
    case UseInstalled => Boot(FinalCheck, loaded, choice)
    case RollbackToPrevious => Boot(CheckFallback, loaded, choice)
    case RefuseStart => Refused(NoFallback)
  }

  /** An embedded fallback is extracted again; any other fallback must verify. */
  function CheckedFallback(s: Sys, loaded: StateFile, choice: string, ok: bool): Sys
    requires loaded.Record?
  {
    var fallback := loaded.state.previousKnownGood;
    if fallback == s.embedded && ok then
      s.(disk := Extracted(s.disk, fallback, true), app := Boot(Reconcile, loaded, choice))
    else if fallback != s.embedded && ok && Verifies(s.disk, fallback) then
      s.(app := Boot(Reconcile, loaded, choice))
    else s.(app := Refused(FallbackDamaged))
  }

  /** `CommitIntegrityRecovery`: an engine other than the fallback must be the failed current
      runtime, and must stop, before the fallback is committed. */
  function Reconciled(s: Sys, loaded: StateFile, choice: string, o: Outcome): Sys
    requires loaded.Record?
  {
    if !Meets(s.engines, o.see) || SameImage(Live(s), loaded.state.previousKnownGood) then
      s.(engines := Met(s.engines, o.see), app := Boot(SaveFallback, loaded, choice))
    else if !SameImage(Live(s), choice) then s.(app := Refused(UnknownRuntime))
    else s.(engines := StopLast(s.engines, o.stop),
            app := if StopOk(o.stop) then Boot(SaveFallback, loaded, choice) else Refused(CurrentNotStopped))
  }

  // ---- the update: src/update/UpdateManager.cpp and RuntimeActivation.cpp ----------

  function PendingState(u: Update): Stored {
    u.stored.(pending := u.candidate, packageSha256 := u.sha256, manifestKeyId := u.keyId,
              lastResult := "candidate-preflight-ok")
  }

  function AbandonedState(u: Update): Stored {
    PendingState(u).(pending := "", lastResult := "previous-runtime-preflight-failed")
  }

  function CommittedState(u: Update): Stored {
    u.stored.(current := u.candidate, previousKnownGood := u.stored.current, pending := "",
              packageSha256 := u.sha256, manifestKeyId := u.keyId, lastResult := "payload-update-committed")
  }

  function RolledBackState(u: Update, result: Status): Stored {
    u.stored.(pending := "", packageSha256 := u.sha256,
              lastResult := if result == RollbackFailed then "payload-rollback-failed"
                            else "payload-update-rolled-back")
  }

  function At(s: Sys, at: UpdateAt, u: Update): Sys
    requires s.app.Updating?
  {
    s.(app := s.app.(at := at, update := u))
  }

  function UpdateStep(s: Sys, o: Outcome): Sys
    requires s.app.Updating?
  {
    var u := s.app.update;
    match s.app.at
    case RemoveOld =>
      if Lower(u.candidate) !in s.disk.present then At(s, Extract, u)
      else if o.ok then At(s.(disk := Without(s.disk, u.candidate)), Extract, u)
      else At(s.(disk := Spoiled(s.disk, u.candidate)), Done(PackageRejected), u)
    case Extract =>
      if o.ok then At(s.(disk := Extracted(s.disk, u.candidate, o.second)), Verify, u)
      else At(s.(disk := if o.second then Without(s.disk, u.candidate) else Extracted(s.disk, u.candidate, false)),
              Done(PackageRejected), u)
    case Verify =>
      if o.ok && Verifies(s.disk, u.candidate) then
        At(s, SavePending, u.(verified := true, wasRunning := s.app.managed && Running(s) && o.again))
      else At(Discarded(s, o.second), Done(PreflightRejected), u)
    case SavePending => SavedPending(s, o)
    case VerifyPrevious =>
      At(s, if o.ok && Verifies(s.disk, u.stored.current) then StopCurrent else AbandonPending, u)
    case AbandonPending =>
      At(s.(disk := Save(s.disk, AbandonedState(u), o.save)),
         Done(if o.save == Saved then PreflightRejected else RollbackFailed), u)
    case StopCurrent =>
      if !u.wasRunning then At(s, StartCandidate, u)
      else if StopOk(o.stop) then
        s.(engines := StopLast(s.engines, o.stop), app := s.app.(at := StartCandidate, managed := false))
      else At(s.(engines := StopLast(s.engines, o.stop)), SaveRolledBack(StopRejected), u)
    case StartCandidate =>
      if !u.wasRunning then At(s, CandidateHealth, u)
      else if o.ok then
        At(s.(engines := Joined(s.engines, u.candidate)), CandidateHealth, u.(owned := true, started := true))
      else At(s.(engines := NotJoined(s.engines, o)), StopCandidate, u)
    case CandidateHealth =>
      if !u.wasRunning then At(s, Commit, u)
      else if o.ok && u.owned && Running(s) then At(s, Commit, u.(healthy := true))
      else At(s, StopCandidate, u)
    case Commit =>
      At(s.(disk := Save(s.disk, CommittedState(u), o.save)), if o.save == Saved then Done(Applied) else StopCandidate, u)
    case StopCandidate => StoppedCandidate(s, o)
    case StartPrevious =>
      if o.ok then At(s.(engines := Joined(s.engines, u.stored.current)), PreviousHealth, u)
      else At(s.(engines := NotJoined(s.engines, o)), StopLeftover(false), u)
    case PreviousHealth => At(s, StopLeftover(o.ok && Running(s)), u)
    case StopLeftover(restored) =>
      At(s.(engines := if u.owned && o.again then StopLast(s.engines, o.stop) else s.engines),
         SaveRolledBack(if restored then RolledBack else RollbackFailed), u)
    case SaveRolledBack(result) =>
      At(s.(disk := Save(s.disk, RolledBackState(u, result), o.save)),
         Done(if o.save == Saved then result else RollbackFailed), u)
    case Done(status) => AfterUpdate(s, status, o.see)
  }

  function Extracted(d: Disk, version: string, complete: bool): Disk {
    d.(present := d.present + {Lower(version)},
       good := Elsewhere(d.good, version) + if complete then {version} else {})
  }

  /** The candidate's directory is removed, or the removal fails and leaves it damaged or not. */
  function Discarded(s: Sys, removed: bool): Sys
    requires s.app.Updating?
  {
    if removed then s.(disk := Without(s.disk, s.app.update.candidate)) else s
  }

  function SavedPending(s: Sys, o: Outcome): Sys
    requires s.app.Updating?
  {
    var u := s.app.update;
    var s' := s.(disk := Save(s.disk, PendingState(u), o.save));
    if o.save != Saved then At(Discarded(s', o.second), Done(PreflightRejected), u)
    else At(s', if u.wasRunning && u.stored.current != s.embedded then VerifyPrevious else StopCurrent, u)
  }

  /** The rollback: with no engine before there is nothing to restart; otherwise the candidate
      must be gone before the previous runtime starts. */
  function StoppedCandidate(s: Sys, o: Outcome): Sys
    requires s.app.Updating?
  {
    var u := s.app.update;
    if !u.wasRunning then At(s, StopLeftover(true), u)
    else if !u.owned then At(s, StartPrevious, u)
    else
      var s' := s.(engines := StopLast(s.engines, o.stop));
      if StopOk(o.stop) then At(s', StartPrevious, u.(owned := false)) else At(s', StopLeftover(false), u)
  }

  /** The caller's reaction: a new selection after success, a new manager after a rollback. */
  function AfterUpdate(s: Sys, status: Status, see: Sight): Sys
    requires s.app.Updating?
  {
    if status == Applied || status == RolledBack then
      s.(engines := Met(s.engines, see),
         app := Ready(if status == Applied then s.app.update.candidate else s.app.selected, Meets(s.engines, see)))
    else s.(app := Ready(s.app.selected, s.app.managed && Running(s)))
  }

  /** `ApplyPayload` up to its first effect: the stored state is readable, the candidate is newer
      and the package is the signed one. */
  function BeginUpdate(s: Sys, candidate: string, sha256: string, keyId: string, trusted: bool): Sys {
    if !s.app.Ready? || s.disk.record.Damaged? || !trusted then s else
    var stored := if s.disk.record.Record? then s.disk.record.state else Initial(s.embedded);
    if !Newer(candidate, stored.current) then s else
    s.(app := Updating(RemoveOld, Update(stored, candidate, sha256, keyId, false, false, false, false, false),
                       s.app.selected, s.app.managed))
  }

  function Initial(embedded: string): Stored { Stored(embedded, "", "", "", "", "") }

  // ---- connecting, cleaning and the environment ---------------------------------------

  /** `Launcher::Connect`: a managed engine that is seen and no longer verifies is stopped; a
      foreign engine in the list of processes blocks; otherwise the selected runtime is prepared
      and started. */
  function Connect(s: Sys, o: Outcome): Sys {
    if !s.app.Ready? then s
    else if Running(s) && s.app.managed && o.again then
      if o.ok then s else Disconnected(s, o.stop)
    else if Foreign(s, o) || !o.ok then s
    else
      var s' := Prepared(s, o.save);
      if !CanStart(s, o.save) then s'
      else if o.second then s'.(engines := Joined(s.engines, s.app.selected), app := Ready(s.app.selected, true))
      else if o.drops then s'.(engines := Unnamed(s.engines), app := Ready(s.app.selected, false))
      else s'
  }

  /** An engine other than the one that the manager holds and sees at the second look. */
  predicate Foreign(s: Sys, o: Outcome)
    requires s.app.Ready?
  {
    o.listed && |s.engines.live| > if s.app.managed && Running(s) && o.trusts then 1 else 0
  }

  function Disconnected(s: Sys, o: StopOutcome): Sys
    requires s.app.Ready?
  {
    s.(engines := StopLast(s.engines, o), app := Ready(s.app.selected, o == FailedAlive))
  }

  /** `EnsureExtracted` for the embedded runtime also writes the first state record. */
  function Prepared(s: Sys, save: SaveOutcome): Sys
    requires s.app.Ready?
  {
    if s.app.selected != s.embedded || s.disk.record.Damaged? then s else
    var d := Extracted(s.disk, s.embedded, true);
    if s.disk.record.Missing? then
      s.(disk := Save(d, Initial(s.embedded).(lastResult := "embedded-runtime-ready"), save))
    else s.(disk := d)
  }

  predicate CanStart(s: Sys, save: SaveOutcome)
    requires s.app.Ready?
  {
    if s.app.selected == s.embedded then s.disk.record.Record? || (s.disk.record.Missing? && save == Saved)
    else Verifies(s.disk, s.app.selected)
  }

  function Disconnect(s: Sys, o: Outcome): Sys {
    if s.app.Ready? && s.app.managed && Running(s) then Disconnected(s, o.stop) else s
  }

  /** The versions that a cleanup keeps; none when the trusted state is unreadable. */
  function BuildRuntimeKeepSet(record: StateFile, active: string, embedded: string, running: string): Option<seq<string>> {
    if !record.Record? || record.state.current == "" || active == "" || embedded == "" then None
    else Some(NonEmpty([active, embedded, running, record.state.current, record.state.previousKnownGood,
                        record.state.pending]))
  }

  /** `seen` says that the recorded engine is identified. */
  function KeepSet(s: Sys, seen: bool): Option<seq<string>> {
    if !s.app.Ready? then None
    else BuildRuntimeKeepSet(s.disk.record, s.app.selected, s.embedded, if Running(s) && seen then Live(s) else "")
  }

  function NonEmpty(versions: seq<string>): seq<string> {
    if versions == [] then []
    else if versions[0] == "" then NonEmpty(versions[1..])
    else [versions[0]] + NonEmpty(versions[1..])
  }

  predicate Kept(keep: seq<string>, name: string) {
    exists i | 0 <= i < |keep| :: SameImage(name, keep[i])
  }

  /** Which of the listed directories went before the first removal that failed. */
  function Cleaned(d: Disk, keep: seq<string>, names: seq<string>, removals: nat): Disk
    decreases |names|
  {
    if names == [] then d
    else if Kept(keep, names[0]) then Cleaned(d, keep, names[1..], removals)
    else if removals == 0 then Spoiled(d, names[0])
    else Cleaned(Without(d, names[0]), keep, names[1..], removals - 1)
  }

  /** The state file is read twice at a launch, first to select a version: `read` says that this
      worked.  Without it the embedded version is selected. */
  datatype Event =
    | Crash
    | EngineExits(i: nat)
    | FilesDamaged(versions: set<string>)
    | Launch(read: bool)
    | BootEvent(o: Outcome)
    | BeginEvent(candidate: string, sha256: string, keyId: string, trusted: bool)
    | UpdateEvent(o: Outcome)
    | ConnectEvent(o: Outcome)
    | DisconnectEvent(o: Outcome)
    | CleanupEvent(names: seq<string>, removals: nat, seen: bool)

  function Apply(s: Sys, e: Event): Sys {
    match e
    case Crash => s.(app := Down)
    case EngineExits(i) =>
      var es := Exited(s.engines, i);
      s.(engines := es, app := if s.app.Ready? then Ready(s.app.selected, s.app.managed && IsNamed(es)) else s.app)
    case FilesDamaged(versions) => s.(disk := s.disk.(good := s.disk.good - versions))
    case Launch(read) =>
      if s.app.Down? || s.app.Refused? then
        s.(app := Boot(Loaded, s.disk.record, if read then CurrentOf(s.embedded, s.disk.record) else s.embedded))
      else s
    case BootEvent(o) => if s.app.Boot? then BootStep(s, s.app.boot, s.app.loaded, s.app.choice, o) else s
    case BeginEvent(candidate, sha256, keyId, trusted) => BeginUpdate(s, candidate, sha256, keyId, trusted)
    case UpdateEvent(o) => if s.app.Updating? then UpdateStep(s, o) else s
    case ConnectEvent(o) => Connect(s, o)
    case DisconnectEvent(o) => Disconnect(s, o)
    case CleanupEvent(names, removals, seen) =>
      if KeepSet(s, seen).None? then s else s.(disk := Cleaned(s.disk, KeepSet(s, seen).value, names, removals))
  }

  /** A whole run: the state after the events, in order. */
  function Run(s: Sys, events: seq<Event>): Sys
    decreases |events|
  {
    if events == [] then s else Apply(Run(s, events[..|events| - 1]), events[|events| - 1])
  }
}
