/** What every run of the update and recovery machine keeps. */
module RuntimeInvariant {
  import opened Texts
  import opened UpdateManifest
  import opened RuntimeModel

  // ---- the invariant ---------------------------------------------------------------

  predicate NothingPending(record: StateFile) { record.Missing? || (record.Record? && record.state.pending == "") }

  /** The record during recovery is the loaded one with its pending version cleared. */
  predicate Cleared(record: StateFile, loaded: StateFile) {
    && NothingPending(record) && record.Record? == loaded.Record?
    && (loaded.Record? ==> record.state.current == loaded.state.current
                           && record.state.previousKnownGood == loaded.state.previousKnownGood)
  }

  /** The version selected at a launch. */
  predicate Chosen(s: Sys, loaded: StateFile, choice: string) {
    choice == CurrentOf(s.embedded, loaded) || choice == s.embedded
  }

  predicate BootOk(s: Sys, at: BootAt, loaded: StateFile, choice: string) {
    match at
    case Loaded => s.disk.record == loaded && Chosen(s, loaded, choice)
    case StopPending => loaded.Record? && s.disk.record == loaded && Chosen(s, loaded, choice)
    case ClearPending => loaded.Record? && s.disk.record == loaded && Chosen(s, loaded, choice)
    case CheckCurrent => Cleared(s.disk.record, loaded) && Chosen(s, loaded, choice)
    case FinalCheck => NothingPending(s.disk.record) && Chosen(s, s.disk.record, choice)
    case _ => loaded.Record? && Cleared(s.disk.record, loaded) && choice == loaded.state.current
              && loaded.state.previousKnownGood != "" && choice != s.embedded
  }

  /** The record still is what the update read. */
  predicate Unchanged(s: Sys, u: Update) {
    s.disk.record == Record(u.stored) || (s.disk.record == Missing && u.stored == Initial(s.embedded))
  }

  predicate IsPending(s: Sys, u: Update) { s.disk.record == Record(PendingState(u)) }

  predicate IsCommitted(s: Sys, u: Update) { s.disk.record == Record(CommittedState(u)) }

  predicate RecordAt(s: Sys, at: UpdateAt, u: Update) {
    match at
    case RemoveOld => Unchanged(s, u)
    case Extract => Unchanged(s, u)
    case Verify => Unchanged(s, u)
    case SavePending => Unchanged(s, u)
    case StopCandidate => IsPending(s, u) || IsCommitted(s, u)
    case StartPrevious => IsPending(s, u) || IsCommitted(s, u)
    case PreviousHealth => IsPending(s, u) || IsCommitted(s, u)
    case StopLeftover(_) => IsPending(s, u) || IsCommitted(s, u)
    case SaveRolledBack(result) =>
      (result == StopRejected || result == RolledBack || result == RollbackFailed)
      && (IsPending(s, u) || (result != StopRejected && IsCommitted(s, u)))
    case Done(status) => DoneAt(s, status, u)
    case _ => IsPending(s, u)
  }

  predicate DoneAt(s: Sys, status: Status, u: Update) {
    match status
    case Applied => IsCommitted(s, u)
    case PackageRejected => Unchanged(s, u)
    case PreflightRejected => Unchanged(s, u) || IsPending(s, u) || s.disk.record == Record(AbandonedState(u))
    case StopRejected => s.disk.record == Record(RolledBackState(u, StopRejected))
    case RolledBack => s.disk.record == Record(RolledBackState(u, RolledBack))
    case RollbackFailed => true
  }

  predicate BeforeStart(at: UpdateAt) {
    at.RemoveOld? || at.Extract? || at.Verify? || at.SavePending? || at.VerifyPrevious? || at.StopCurrent?
    || at.StartCandidate?
  }

  /** When the candidate's manager holds a process. */
  predicate OwnedAt(at: UpdateAt, u: Update) {
    && (u.owned ==> u.wasRunning)
    && (BeforeStart(at) ==> !u.owned)
    && (u.wasRunning && (at == CandidateHealth || at == Commit) ==> u.owned)
    && (at == StartPrevious ==> u.wasRunning && !u.owned)
  }

  /** What must have happened before a commit. */
  predicate MilestonesAt(at: UpdateAt, u: Update) {
    && (at.Commit? || at.SavePending? || at.VerifyPrevious? || at.StopCurrent? ==> u.verified)
    && (at.StartCandidate? || at.CandidateHealth? ==> u.verified)
    && (u.wasRunning && at.CandidateHealth? ==> u.started)
    && (u.wasRunning && at.Commit? ==> u.started && u.healthy)
  }

  predicate UpdateOk(s: Sys, at: UpdateAt, u: Update) {
    && Newer(u.candidate, u.stored.current) && RecordAt(s, at, u) && OwnedAt(at, u) && MilestonesAt(at, u)
  }

  predicate Inv(s: Sys) {
    && (s.app.Boot? ==> BootOk(s, s.app.boot, s.app.loaded, s.app.choice))
    && (s.app.Updating? ==> UpdateOk(s, s.app.at, s.app.update))
  }

  /** Any disk and any processes, before the first launch. */
  predicate Start(s: Sys) { s.app.Down? }

  // ---- every step keeps it ------------------------------------------------------------

  lemma PendingRecoveryKeeps(s: Sys, o: Outcome)
    requires Inv(s) && s.app.Boot? && (s.app.boot.Loaded? || s.app.boot.StopPending? || s.app.boot.ClearPending?)
    ensures Inv(BootStep(s, s.app.boot, s.app.loaded, s.app.choice, o))
  {
    hide Newer, Lower, Elsewhere;
  }

  lemma IntegrityRecoveryKeeps(s: Sys, o: Outcome)
    requires Inv(s) && s.app.Boot? && !s.app.boot.Loaded? && !s.app.boot.StopPending? && !s.app.boot.ClearPending?
    ensures Inv(BootStep(s, s.app.boot, s.app.loaded, s.app.choice, o))
  {
    hide Newer, Lower, Elsewhere;
  }

  lemma BeginKeeps(s: Sys, candidate: string, sha256: string, keyId: string, trusted: bool)
    requires Inv(s)
    ensures Inv(BeginUpdate(s, candidate, sha256, keyId, trusted))
  {
    hide Newer, Lower, Elsewhere;
  }

  lemma PrepareKeeps(s: Sys, o: Outcome)
    requires Inv(s) && s.app.Updating? && (s.app.at.RemoveOld? || s.app.at.Extract? || s.app.at.Verify?)
    ensures Inv(UpdateStep(s, o))
  {
    hide Newer, Lower, Elsewhere;
  }

  lemma SavePendingKeeps(s: Sys, o: Outcome)
    requires Inv(s) && s.app.Updating? && s.app.at.SavePending?
    ensures Inv(UpdateStep(s, o))
  {
    hide Newer, Lower, Elsewhere;
  }

  lemma PreviousCheckKeeps(s: Sys, o: Outcome)
    requires Inv(s) && s.app.Updating? && (s.app.at.VerifyPrevious? || s.app.at.AbandonPending?)
    ensures Inv(UpdateStep(s, o))
  {
    hide Newer, Lower, Elsewhere;
  }

  lemma SwitchKeeps(s: Sys, o: Outcome)
    requires Inv(s) && s.app.Updating?
    requires s.app.at.StopCurrent? || s.app.at.StartCandidate? || s.app.at.CandidateHealth? || s.app.at.Commit?
    ensures Inv(UpdateStep(s, o))
  {
    hide Newer, Lower, Elsewhere;
  }

  lemma RollbackKeeps(s: Sys, o: Outcome)
    requires Inv(s) && s.app.Updating?
    requires s.app.at.StopCandidate? || s.app.at.StartPrevious?
    ensures Inv(UpdateStep(s, o))
  {
    hide Newer, Lower, PendingState, CommittedState;
    SavedStatesSame(s.app.update);
  }

  lemma SavedStatesSame(u: Update)
    ensures PendingState(u.(owned := false)) == PendingState(u)
    ensures CommittedState(u.(owned := false)) == CommittedState(u)
  {}

  lemma FinishKeeps(s: Sys, o: Outcome)
    requires Inv(s) && s.app.Updating?
    requires s.app.at.PreviousHealth? || s.app.at.StopLeftover? || s.app.at.SaveRolledBack? || s.app.at.Done?
    ensures Inv(UpdateStep(s, o))
  {
    hide Newer, Lower, PendingState, CommittedState, RolledBackState;
  }

  lemma ConnectKeeps(s: Sys, o: Outcome)
    requires Inv(s)
    ensures Inv(Connect(s, o)) && Inv(Disconnect(s, o))
  {
    hide Newer, Lower, Elsewhere;
  }

  lemma {:induction false} CleanedKeepsRecord(d: Disk, keep: seq<string>, names: seq<string>, removals: nat)
    ensures Cleaned(d, keep, names, removals).record == d.record
    decreases |names|
  {
    hide Lower, Kept;
    if names != [] {
      CleanedKeepsRecord(d, keep, names[1..], removals);
      if removals > 0 { CleanedKeepsRecord(Without(d, names[0]), keep, names[1..], removals - 1); }
    }
  }

  /** Every event of the machine or of its environment keeps the invariant. */
  lemma StepKeeps(s: Sys, e: Event)
    requires Inv(s)
    ensures Inv(Apply(s, e))
  {
    hide Newer, Lower, BootStep, UpdateStep, BeginUpdate, Connect, Disconnect, KeepSet;
    match e
    case BootEvent(o) =>
      if s.app.Boot? {
        match s.app.boot
        case Loaded => PendingRecoveryKeeps(s, o);
        case StopPending => PendingRecoveryKeeps(s, o);
        case ClearPending => PendingRecoveryKeeps(s, o);
        case _ => IntegrityRecoveryKeeps(s, o);
      }
    case BeginEvent(candidate, sha256, keyId, trusted) => BeginKeeps(s, candidate, sha256, keyId, trusted);
    case UpdateEvent(o) =>
      if s.app.Updating? {
        match s.app.at
        case RemoveOld => PrepareKeeps(s, o);
        case Extract => PrepareKeeps(s, o);
        case Verify => PrepareKeeps(s, o);
        case SavePending => SavePendingKeeps(s, o);
        case VerifyPrevious => PreviousCheckKeeps(s, o);
        case AbandonPending => PreviousCheckKeeps(s, o);
        case StopCurrent => SwitchKeeps(s, o);
        case StartCandidate => SwitchKeeps(s, o);
        case CandidateHealth => SwitchKeeps(s, o);
        case Commit => SwitchKeeps(s, o);
        case StopCandidate => RollbackKeeps(s, o);
        case StartPrevious => RollbackKeeps(s, o);
        case _ => FinishKeeps(s, o);
      }
    case ConnectEvent(o) => ConnectKeeps(s, o);
    case DisconnectEvent(o) => ConnectKeeps(s, o);
    case CleanupEvent(names, removals, seen) =>
      if KeepSet(s, seen).Some? { CleanedKeepsRecord(s.disk, KeepSet(s, seen).value, names, removals); }
    case _ =>
  }

  /** The invariant holds after any run of updates, crashes, restarts and everything between. */
  lemma {:induction false} RunKeeps(s: Sys, events: seq<Event>)
    requires Start(s)
    ensures Inv(Run(s, events))
    decreases |events|
  {
    hide Inv, Apply;
    StartIsInv(s);
    if events != [] {
      RunKeeps(s, events[..|events| - 1]);
      StepKeeps(Run(s, events[..|events| - 1]), events[|events| - 1]);
    }
  }

  lemma StartIsInv(s: Sys)
    requires Start(s)
    ensures Inv(s)
  {}

  lemma AppliedUpdate(t: Sys, e: Event)
    requires t.app.Updating? && e.UpdateEvent?
    ensures Apply(t, e) == UpdateStep(t, e.o)
  {
    hide UpdateStep;
  }

  lemma AppliedBoot(s: Sys, e: Event)
    requires s.app.Boot? && e.BootEvent?
    ensures Apply(s, e) == BootStep(s, s.app.boot, s.app.loaded, s.app.choice, e.o)
  {
    hide BootStep;
  }

  lemma {:induction false} RunConcat(s: Sys, before: seq<Event>, steps: seq<Event>)
    ensures Run(s, before + steps) == Run(Run(s, before), steps)
    decreases |steps|
  {
    hide Apply;
    var all := before + steps;
    if steps == [] {
      assert all == before;
    } else {
      assert all[..|all| - 1] == before + steps[..|steps| - 1];
      RunConcat(s, before, steps[..|steps| - 1]);
    }
  }

  // ---- the order of the versions of a record -------------------------------------------

  /** The fallback is older than the current version, and a pending version is newer. */
  predicate StoredOk(r: Stored) {
    && (r.previousKnownGood == "" || Newer(r.current, r.previousKnownGood))
    && (r.pending == "" || Newer(r.pending, r.current))
  }

  predicate RecordOk(record: StateFile) { record.Record? ==> StoredOk(record.state) }

  /** The versions are in order on disk and wherever the launcher keeps a copy. */
  predicate Ordered(s: Sys) {
    && RecordOk(s.disk.record)
    && (s.app.Boot? ==> RecordOk(s.app.loaded))
    && (s.app.Updating? ==> StoredOk(s.app.update.stored))
  }

  lemma SavedStatesOk(u: Update, result: Status)
    requires StoredOk(u.stored) && Newer(u.candidate, u.stored.current)
    ensures StoredOk(PendingState(u)) && StoredOk(AbandonedState(u)) && StoredOk(CommittedState(u))
    ensures StoredOk(RolledBackState(u, result))
  {
    hide Newer;
  }

  lemma BootOrdered(s: Sys, o: Outcome)
    requires Inv(s) && Ordered(s) && s.app.Boot?
    ensures Ordered(BootStep(s, s.app.boot, s.app.loaded, s.app.choice, o))
  {
    hide Newer, Lower, Elsewhere, StopLast;
  }

  lemma UpdateOrdered(s: Sys, o: Outcome)
    requires Inv(s) && Ordered(s) && s.app.Updating?
    ensures Ordered(UpdateStep(s, o))
  {
    hide Newer, Lower, Elsewhere, StopLast, StoredOk, RecordAt, OwnedAt, MilestonesAt, Verifies;
    hide PendingState, AbandonedState, CommittedState, RolledBackState;
    SavedStatesOk(s.app.update, StopRejected);
    SavedStatesOk(s.app.update, RolledBack);
    SavedStatesOk(s.app.update, RollbackFailed);
    if s.app.at.SaveRolledBack? { SavedStatesOk(s.app.update, s.app.at.result); }
  }

  lemma StepOrdered(s: Sys, e: Event)
    requires Inv(s) && Ordered(s)
    ensures Ordered(Apply(s, e))
  {
    hide Newer, Lower, Inv, BootStep, UpdateStep, KeepSet;
    match e
    case BootEvent(o) => if s.app.Boot? { BootOrdered(s, o); }
    case UpdateEvent(o) => if s.app.Updating? { UpdateOrdered(s, o); }
    case CleanupEvent(names, removals, seen) =>
      if KeepSet(s, seen).Some? { CleanedKeepsRecord(s.disk, KeepSet(s, seen).value, names, removals); }
    case _ =>
  }

  /** Over every run from a record whose versions are in order, they stay so. */
  lemma {:induction false} RunOrdered(s: Sys, events: seq<Event>)
    requires Start(s) && RecordOk(s.disk.record)
    ensures Ordered(Run(s, events))
    decreases |events|
  {
    hide Inv, Apply, RecordOk;
    if events != [] {
      RunOrdered(s, events[..|events| - 1]);
      RunKeeps(s, events[..|events| - 1]);
      StepOrdered(Run(s, events[..|events| - 1]), events[|events| - 1]);
    }
  }
}
