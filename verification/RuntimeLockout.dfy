/** When a restart can be refused because the running engine is neither the current nor the
    pending version. */
module RuntimeLockout {
  import opened Texts
  import opened UpdateManifest
  import opened RuntimeModel
  import opened RuntimeInvariant
  import opened RuntimeFaults

  // ---- without the faults that lock out -------------------------------------------------

  /** The faults that no launcher is locked out by. */
  predicate Harmless(f: Faults) {
    && !f.ambiguousSaves && !f.failingStops && !f.unmanagedUpdates && !f.failingReads
    && !f.unreadRecords && !f.unseenQueries && !f.keptStops
  }

  predicate Calm(o: Outcome) {
    o.save != FailedNew && (o.stop == Stopped || o.stop == Unseen) && o.see != Unread && o.again && o.trusts
  }

  predicate EngineIs(s: Sys, version: string) { Running(s) ==> SameImage(Live(s), version) }

  predicate EngineKnown(s: Sys) {
    Running(s) ==>
      || SameImage(Live(s), CurrentVersion(s))
      || (s.disk.record.Record? && s.disk.record.state.pending != "" && SameImage(Live(s), s.disk.record.state.pending))
  }

  predicate BootEngine(s: Sys)
    requires s.app.Boot?
  {
    match s.app.boot
    case ClearPending => EngineIs(s, s.app.choice)
    case SaveFallback => s.app.loaded.Record? && EngineIs(s, s.app.loaded.state.previousKnownGood)
    case _ => true
  }

  predicate CandidatePhase(at: UpdateAt) { at == CandidateHealth || at == Commit || at == StopCandidate }

  predicate Restarting(at: UpdateAt) {
    at.StartPrevious? || at.PreviousHealth? || at.StopLeftover? || at.SaveRolledBack?
  }

  predicate UpdateEngine(s: Sys)
    requires s.app.Updating?
  {
    var at, u := s.app.at, s.app.update;
    && s.app.selected == u.stored.current
    && (at.RemoveOld? || at.Extract? || at.Verify? ==> Running(s) ==> s.app.managed)
    && (!(at.RemoveOld? || at.Extract? || at.Verify? || at.Done?) && !u.wasRunning ==> !Running(s))
    && (if at.Done? then EngineIs(s, CurrentVersion(s))
        else if CandidatePhase(at) then EngineIs(s, u.candidate) && IsPending(s, u)
        else EngineIs(s, u.stored.current) && CurrentVersion(s) == u.stored.current)
    && (Restarting(at) ==> !u.owned && IsPending(s, u))
    && (at.StartCandidate? || (at.StopCandidate? && !u.owned) ==> !Running(s))
    && (at.Done? && at.status != Applied ==> CurrentVersion(s) == u.stored.current)
  }

  predicate Tame(s: Sys) {
    && Inv(s) && EngineKnown(s) && !LockedOut(s)
    && (s.app.Boot? ==> BootEngine(s) && s.app.choice == CurrentVersion(s))
    && (s.app.Ready? ==> s.app.selected == CurrentVersion(s) && EngineIs(s, s.app.selected))
    && (s.app.Updating? ==> UpdateEngine(s))
  }

  /** The part of `Tame` beyond the invariant. */
  predicate Unlocked(s: Sys) {
    && EngineKnown(s) && !LockedOut(s)
    && (s.app.Boot? ==> BootEngine(s) && s.app.choice == CurrentVersion(s))
    && (s.app.Ready? ==> s.app.selected == CurrentVersion(s) && EngineIs(s, s.app.selected))
    && (s.app.Updating? ==> UpdateEngine(s))
  }

  predicate EarlyBoot(at: BootAt) { at.Loaded? || at.StopPending? || at.ClearPending? }

  lemma UnlockedEarlyBoot(s: Sys, o: Outcome)
    requires Tame(s) && s.app.Boot? && EarlyBoot(s.app.boot) && Calm(o)
    ensures Unlocked(BootStep(s, s.app.boot, s.app.loaded, s.app.choice, o))
  {
    hide Newer, Lower, Elsewhere;
  }

  lemma UnlockedIntegrity(s: Sys, o: Outcome)
    requires Tame(s) && s.app.Boot? && (s.app.boot.CheckCurrent? || s.app.boot.CheckFallback?)
    ensures Unlocked(BootStep(s, s.app.boot, s.app.loaded, s.app.choice, o))
  {
    hide Newer, Lower, Elsewhere;
  }

  lemma UnlockedFallback(s: Sys, o: Outcome)
    requires Tame(s) && s.app.Boot? && !EarlyBoot(s.app.boot) && Calm(o)
    requires !s.app.boot.CheckCurrent? && !s.app.boot.CheckFallback?
    ensures Unlocked(BootStep(s, s.app.boot, s.app.loaded, s.app.choice, o))
  {
    hide Newer, Lower, Elsewhere;
  }

  lemma NewerIsText(a: string, b: string)
    requires Newer(a, b)
    ensures a != "" && b != ""
  {}

  lemma UnlockedRemoveOld(s: Sys, o: Outcome)
    requires Tame(s) && s.app.Updating? && s.app.at.RemoveOld? && Calm(o)
    ensures Unlocked(UpdateStep(s, o))
  {
    hide Newer, Lower, MilestonesAt, Elsewhere;
    NewerIsText(s.app.update.candidate, s.app.update.stored.current);
  }

  lemma UnlockedExtract(s: Sys, o: Outcome)
    requires Tame(s) && s.app.Updating? && s.app.at.Extract? && Calm(o)
    ensures Unlocked(UpdateStep(s, o))
  {
    hide Newer, Lower, MilestonesAt, Elsewhere;
    NewerIsText(s.app.update.candidate, s.app.update.stored.current);
  }

  lemma UnlockedVerify(s: Sys, o: Outcome)
    requires Tame(s) && s.app.Updating? && (s.app.at.Verify?) && Calm(o)
    ensures Unlocked(UpdateStep(s, o))
  {
    hide Newer, Lower, MilestonesAt, Elsewhere;
    NewerIsText(s.app.update.candidate, s.app.update.stored.current);
  }

  lemma SavePendingStep(s: Sys, o: Outcome)
    requires s.app.Updating? && s.app.at.SavePending?
    ensures UpdateStep(s, o) == SavedPending(s, o)
  {
    hide SavedPending;
  }

  lemma UnlockedSavePending(s: Sys, o: Outcome)
    requires Tame(s) && s.app.Updating? && (s.app.at.SavePending?) && Calm(o)
    ensures Unlocked(UpdateStep(s, o))
  {
    hide Newer, Lower, MilestonesAt, Elsewhere, UpdateStep, BootEngine;
    SavePendingStep(s, o);
    NewerIsText(s.app.update.candidate, s.app.update.stored.current);
  }

  lemma UnlockedPreviousCheck(s: Sys, o: Outcome)
    requires Tame(s) && s.app.Updating? && (s.app.at.VerifyPrevious? || s.app.at.AbandonPending?) && Calm(o)
    ensures Unlocked(UpdateStep(s, o))
  {
    hide Newer, Lower, MilestonesAt, Elsewhere;
    NewerIsText(s.app.update.candidate, s.app.update.stored.current);
  }

  lemma UnlockedStop(s: Sys, o: Outcome)
    requires Tame(s) && s.app.Updating? && (s.app.at.StopCurrent?) && Calm(o)
    ensures Unlocked(UpdateStep(s, o))
  {
    hide Newer, Lower, MilestonesAt, Elsewhere;
    NewerIsText(s.app.update.candidate, s.app.update.stored.current);
  }

  lemma UnlockedStart(s: Sys, o: Outcome)
    requires Tame(s) && s.app.Updating? && (s.app.at.StartCandidate? || s.app.at.CandidateHealth?) && Calm(o)
    ensures Unlocked(UpdateStep(s, o))
  {
    hide Newer, Lower, MilestonesAt, Elsewhere;
    NewerIsText(s.app.update.candidate, s.app.update.stored.current);
  }

  lemma UnlockedCommit(s: Sys, o: Outcome)
    requires Tame(s) && s.app.Updating? && (s.app.at.Commit?) && Calm(o)
    ensures Unlocked(UpdateStep(s, o))
  {
    hide Newer, Lower, MilestonesAt, Elsewhere;
    NewerIsText(s.app.update.candidate, s.app.update.stored.current);
  }

  lemma UnlockedStopCandidate(s: Sys, o: Outcome)
    requires Tame(s) && s.app.Updating? && (s.app.at.StopCandidate?) && Calm(o)
    ensures Unlocked(UpdateStep(s, o))
  {
    hide Newer, Lower, MilestonesAt, Elsewhere;
    NewerIsText(s.app.update.candidate, s.app.update.stored.current);
  }

  lemma UnlockedRestart(s: Sys, o: Outcome)
    requires Tame(s) && s.app.Updating? && (s.app.at.StartPrevious? || s.app.at.PreviousHealth?) && Calm(o)
    ensures Unlocked(UpdateStep(s, o))
  {
    hide Newer, Lower, MilestonesAt, Elsewhere;
    NewerIsText(s.app.update.candidate, s.app.update.stored.current);
  }

  lemma UnlockedLeftover(s: Sys, o: Outcome)
    requires Tame(s) && s.app.Updating? && (s.app.at.StopLeftover?) && Calm(o)
    ensures Unlocked(UpdateStep(s, o))
  {
    hide Newer, Lower, MilestonesAt, Elsewhere;
    NewerIsText(s.app.update.candidate, s.app.update.stored.current);
  }

  lemma UnlockedFinish(s: Sys, o: Outcome)
    requires Tame(s) && s.app.Updating? && (s.app.at.SaveRolledBack? || s.app.at.Done?) && Calm(o)
    ensures Unlocked(UpdateStep(s, o))
  {
    hide Newer, Lower, MilestonesAt, Elsewhere;
    NewerIsText(s.app.update.candidate, s.app.update.stored.current);
  }

  lemma UnlockedUpdate(s: Sys, o: Outcome)
    requires Tame(s) && s.app.Updating? && Calm(o)
    ensures Unlocked(UpdateStep(s, o))
  {
    hide Tame, Unlocked, UpdateStep;
    match s.app.at
    case RemoveOld => UnlockedRemoveOld(s, o);
    case Extract => UnlockedExtract(s, o);
    case Verify => UnlockedVerify(s, o);
    case SavePending => UnlockedSavePending(s, o);
    case VerifyPrevious => UnlockedPreviousCheck(s, o);
    case AbandonPending => UnlockedPreviousCheck(s, o);
    case StopCurrent => UnlockedStop(s, o);
    case StartCandidate => UnlockedStart(s, o);
    case CandidateHealth => UnlockedStart(s, o);
    case Commit => UnlockedCommit(s, o);
    case StopCandidate => UnlockedStopCandidate(s, o);
    case StartPrevious => UnlockedRestart(s, o);
    case PreviousHealth => UnlockedRestart(s, o);
    case StopLeftover(_) => UnlockedLeftover(s, o);
    case SaveRolledBack(_) => UnlockedFinish(s, o);
    case Done(_) => UnlockedFinish(s, o);
  }

  lemma UnlockedConnect(s: Sys, o: Outcome)
    requires Tame(s) && Calm(o)
    ensures Unlocked(Connect(s, o))
  {
    hide Newer, Lower, MilestonesAt, RecordAt, OwnedAt;
  }

  lemma UnlockedDisconnect(s: Sys, o: Outcome)
    requires Tame(s) && Calm(o)
    ensures Unlocked(Disconnect(s, o))
  {
    hide Newer, Lower, MilestonesAt, RecordAt, OwnedAt;
  }

  lemma UnlockedOther(f: Faults, s: Sys, e: Event)
    requires Tame(s) && Harmless(f) && Allowed(f, s, e)
    requires !e.BootEvent? && !e.UpdateEvent? && !e.ConnectEvent? && !e.DisconnectEvent?
    ensures Unlocked(Apply(s, e))
  {
    hide *;
    if e.CleanupEvent? {
      UnlockedCleanup(s, e);
    } else {
      UnlockedRest(f, s, e);
    }
  }

  lemma UnlockedCleanup(s: Sys, e: Event)
    requires Tame(s) && e.CleanupEvent?
    ensures Unlocked(Apply(s, e))
  {
    hide Newer, Lower, MilestonesAt, KeepSet, RecordAt, OwnedAt;
    if KeepSet(s, e.seen).Some? {
      CleanedKeepsRecord(s.disk, KeepSet(s, e.seen).value, e.names, e.removals);
    }
  }

  lemma UnlockedRest(f: Faults, s: Sys, e: Event)
    requires Tame(s) && Harmless(f) && Allowed(f, s, e) && !e.CleanupEvent?
    requires !e.BootEvent? && !e.UpdateEvent? && !e.ConnectEvent? && !e.DisconnectEvent?
    ensures Unlocked(Apply(s, e))
  {
    hide Newer, Lower, MilestonesAt, KeepSet, RecordAt, OwnedAt;
  }

  lemma CalmOutcome(f: Faults, o: Outcome)
    requires Harmless(f) && AllowedOutcome(f, o)
    ensures Calm(o)
  {}

  lemma TameStep(f: Faults, s: Sys, e: Event)
    requires Tame(s) && Harmless(f) && Allowed(f, s, e)
    ensures Tame(Apply(s, e))
  {
    hide Inv, BootStep, UpdateStep, EngineKnown, LockedOut, BootEngine, UpdateEngine, EngineIs, AllowedOutcome, Calm;
    hide Harmless;
    StepKeeps(s, e);
    if e.BootEvent? {
      CalmOutcome(f, e.o);
      if s.app.Boot? {
        if EarlyBoot(s.app.boot) { UnlockedEarlyBoot(s, e.o); }
        else if s.app.boot.CheckCurrent? || s.app.boot.CheckFallback? { UnlockedIntegrity(s, e.o); }
        else { UnlockedFallback(s, e.o); }
      }
    } else if e.UpdateEvent? {
      CalmOutcome(f, e.o);
      if s.app.Updating? { UnlockedUpdate(s, e.o); }
    } else if e.ConnectEvent? || e.DisconnectEvent? {
      CalmOutcome(f, e.o);
      UnlockedConnect(s, e.o);
      UnlockedDisconnect(s, e.o);
    } else {
      UnlockedOther(f, s, e);
    }
  }

  lemma {:induction false} TameRun(f: Faults, s: Sys, events: seq<Event>)
    requires Harmless(f) && StartFor(LockOut, s) && AllowedRun(f, s, events)
    ensures Tame(Run(s, events))
    decreases |events|
  {
    hide Tame, Apply, Allowed, Harmless, StartFor;
    TameStart(s);
    if events != [] {
      TameRun(f, s, events[..|events| - 1]);
      TameStep(f, Run(s, events[..|events| - 1]), events[|events| - 1]);
    }
  }

  lemma TameStart(s: Sys)
    requires StartFor(LockOut, s)
    ensures Tame(s)
  {}

  // ---- each of those faults can lock out ------------------------------------------------

  lemma AmbiguousCommitEnd(f: Faults)
    ensures Can(f, LockOut, Sys(OLD, Disk2(CommittedNew()), One(NEW), Updating(StopCandidate, Upd(true, true, true, true, true), OLD, false)))
  {
    hide Can, Lower, Newer, Cleaned, KeepSet, Connect, Disconnect;
    OldAndNew();
    var s0 := Sys(OLD, Disk2(CommittedNew()), One(NEW), Updating(StopCandidate, Upd(true, true, true, true, true), OLD, false));
    var s1 := Sys(OLD, Disk2(CommittedNew()), NONE, Updating(StartPrevious, Upd(true, false, true, true, true), OLD, false));
    var s2 := Sys(OLD, Disk2(CommittedNew()), One(OLD), Updating(PreviousHealth, Upd(true, false, true, true, true), OLD, false));
    var s3 := Sys(OLD, Disk2(CommittedNew()), One(OLD), Down);
    TailLocks(f, Disk2(CommittedNew()), CommittedNew(), OLD);
    CanBefore(f, LockOut, s2, Crash, s3);
    CanBefore(f, LockOut, s1, UpdateEvent(YES), s2);
    CanBefore(f, LockOut, s0, UpdateEvent(YES), s1);
  }

  /** The candidate has started and waits to be found healthy. */
  function Waiting(): Sys {
    Sys(OLD, Disk2(PendingOld()), One(NEW), Updating(CandidateHealth, Upd(true, true, true, true, false), OLD, false))
  }

  /** The commit takes effect, reports a failure, and the old engine is restarted. */
  lemma AmbiguousCommitLocks(f: Faults)
    requires f.ambiguousSaves
    ensures Can(f, LockOut, Waiting())
  {
    hide Can, Lower, Newer, Cleaned, KeepSet, Connect, Disconnect;
    OldAndNew();
    var s2 := Sys(OLD, Disk2(PendingOld()), One(NEW), Updating(Commit, Upd(true, true, true, true, true), OLD, false));
    var s3 := Sys(OLD, Disk2(CommittedNew()), One(NEW), Updating(StopCandidate, Upd(true, true, true, true, true), OLD, false));
    AmbiguousCommitEnd(f);
    CanBefore(f, LockOut, s2, UpdateEvent(YES.(save := FailedNew)), s3);
    CanBefore(f, LockOut, Waiting(), UpdateEvent(YES), s2);
  }

  /** The candidate is alive but not healthy. */
  function Unhealthy(at: UpdateAt): Sys {
    Sys(OLD, Disk2(PendingOld()), One(NEW), Updating(at, Upd(true, true, true, true, false), OLD, false))
  }

  /** The record after the rollback that failed. */
  function GivenUp(): Stored { RolledBackState(Upd(true, true, true, true, false), RollbackFailed) }

  function GaveUp(app: App): Sys { Sys(OLD, Disk2(GivenUp()), One(NEW), app) }

  lemma UnhealthyStep()
    ensures Apply(Waiting(), UpdateEvent(NO)) == Unhealthy(StopCandidate)
    ensures Apply(Unhealthy(StopCandidate), UpdateEvent(YES.(stop := FailedAlive))) == Unhealthy(StopLeftover(false))
    ensures Apply(Unhealthy(StopLeftover(false)), UpdateEvent(YES.(stop := FailedAlive)))
            == Unhealthy(SaveRolledBack(RollbackFailed))
  {
    hide Save, PendingState, RolledBackState, Lower;
  }

  lemma GiveUpStep()
    ensures Apply(Unhealthy(SaveRolledBack(RollbackFailed)), UpdateEvent(YES))
            == GaveUp(Unhealthy(Done(RollbackFailed)).app)
    ensures Apply(GaveUp(Unhealthy(Done(RollbackFailed)).app), Crash) == GaveUp(Down)
    ensures GivenUp().pending == "" && GivenUp().current == OLD
  {
    hide PendingState, Lower;
  }

  lemma StopFails(f: Faults, s: Sys)
    requires f.failingStops
    ensures Allowed(f, s, UpdateEvent(YES.(stop := FailedAlive))) && Allowed(f, s, Crash)
  {}

  lemma GivenUpLocks(f: Faults)
    ensures Can(f, LockOut, GaveUp(Down))
  {
    hide Can, Lower, GivenUp;
    OldAndNew();
    GiveUpStep();
    TailLocks(f, Disk2(GivenUp()), GivenUp(), NEW);
  }

  /** The unhealthy candidate cannot be stopped and the rollback clears the pending version. */
  lemma FailedStopLocks(f: Faults)
    requires f.failingStops
    ensures Can(f, LockOut, Waiting())
  {
    hide *;
    UnhealthyStep();
    GiveUpStep();
    GivenUpLocks(f);
    forall s ensures Allowed(f, s, UpdateEvent(YES)) && Allowed(f, s, UpdateEvent(NO)) { CalmUpdate(f, s); }
    forall s ensures Allowed(f, s, UpdateEvent(YES.(stop := FailedAlive))) && Allowed(f, s, Crash) { StopFails(f, s); }
    var s5 := GaveUp(Unhealthy(Done(RollbackFailed)).app);
    CanBefore(f, LockOut, s5, Crash, GaveUp(Down));
    CanBefore(f, LockOut, Unhealthy(SaveRolledBack(RollbackFailed)), UpdateEvent(YES), s5);
    CanBefore(f, LockOut, Unhealthy(StopLeftover(false)), UpdateEvent(YES.(stop := FailedAlive)),
              Unhealthy(SaveRolledBack(RollbackFailed)));
    CanBefore(f, LockOut, Unhealthy(StopCandidate), UpdateEvent(YES.(stop := FailedAlive)), Unhealthy(StopLeftover(false)));
    CanBefore(f, LockOut, Waiting(), UpdateEvent(NO), Unhealthy(StopCandidate));
  }

  lemma StartToWaiting(f: Faults)
    requires Can(f, LockOut, Waiting())
    ensures Can(f, LockOut, FirstStart())
  {
    hide Can, Lower, Newer, Cleaned, KeepSet, Connect, Disconnect;
    OldAndNew();
    CanBefore(f, LockOut, Switching(), UpdateEvent(YES), Waiting());
    StartToSwitching(f, LockOut);
  }

  /** An update that does not see the old engine commits beside it. */
  lemma IdleLocks(f: Faults, r: Stored, managed: bool, o: Outcome)
    requires r == OLD_STATE || r == PendingOld()
    requires o == YES.(again := o.again) && AllowedOutcome(f, o) && !(managed && o.again)
    ensures Can(f, LockOut, Sys(OLD, if r == OLD_STATE then Disk1(r) else Disk2(r), One(OLD),
                                Updating(RemoveOld, Idle(r, false), OLD, managed)))
  {
    hide Can, Newer, Lower;
    OldAndNew();
    var d := if r == OLD_STATE then Disk1(r) else Disk2(r);
    TailLocks(f, Updated(d, r), CommittedState(Idle(r, false)), OLD);
    IdleUpdate(f, LockOut, d, One(OLD), r, managed, o);
  }

  /** After a rollback that lost its manager the next update does not see the engine. */
  lemma SecondUpdateLocks(f: Faults)
    requires f.unmanagedUpdates
    ensures Can(f, LockOut, FirstStart())
  {
    hide Can, Lower, Newer, Updated;
    OldAndNew();
    IdleLocks(f, PendingOld(), false, YES);
    CanBefore(f, LockOut, LostManager(), BeginEvent(NEW, "", "", true),
              Sys(OLD, Disk2(PendingOld()), One(OLD), Updating(RemoveOld, Idle(PendingOld(), false), OLD, false)));
    StartToLostManager(f, LockOut);
  }

  /** The manager does not see its engine when the update asks. */
  lemma UnseenQueryLocks(f: Faults)
    requires f.unseenQueries
    ensures Can(f, LockOut, FirstStart())
  {
    hide Can, Lower, Newer, Updated;
    IdleLocks(f, OLD_STATE, true, YES.(again := false));
    ReadyToBegan(f, LockOut);
  }

  lemma RecoveredLocks(f: Faults)
    ensures Can(f, LockOut, Recovered(One(NEW)))
  {
    hide Can, ClearedOld, PendingOld, Disk2, One;
    OldAndNew();
    CheckLocks(f, Disk2(ClearedOld()), Record(PendingOld()), OLD, NEW);
  }

  /** The recovery cannot read the process record of the started candidate, clears the pending
      mark, and then the engine is the wrong one. */
  lemma UnreadRecordLocks(f: Faults)
    requires f.unreadRecords
    ensures Can(f, LockOut, FirstStart())
  {
    hide Can, Recovered, Crashed;
    RecoveredLocks(f);
    CrashedUnseen(f, LockOut, Unread);
    StartToCrashed(f, LockOut);
  }

  /** The recovery believes the candidate's engine stopped, and the record of it stays. */
  lemma KeptStopLocks(f: Faults)
    requires f.keptStops
    ensures Can(f, LockOut, FirstStart())
  {
    hide Can, Recovered, Crashed;
    RecoveredLocks(f);
    CrashedStopped(f, LockOut, UnseenKept);
    StartToCrashed(f, LockOut);
  }

  /** Version `NEW` is installed and its engine alive; `OLD` is the embedded version. */
  function InstalledStart(): Sys { Sys(OLD, Disk2(NEW_STATE), One(NEW), Down) }

  const NEW_STATE: Stored := Stored(NEW, "", "", "", "", "")

  /** The launch cannot read which version to select, takes the embedded one, and finds the engine
      of the current one. */
  lemma FailedReadLocks(f: Faults)
    requires f.failingReads
    ensures Can(f, LockOut, InstalledStart())
  {
    hide Can, Lower, Newer, Cleaned, KeepSet, Connect, Disconnect;
    OldAndNew();
    var s0 := InstalledStart();
    var s1 := s0.(app := Boot(Loaded, Record(NEW_STATE), OLD));
    var s2 := s0.(app := Boot(CheckCurrent, Record(NEW_STATE), OLD));
    var s3 := s0.(app := Boot(FinalCheck, Record(NEW_STATE), OLD));
    var s4 := s0.(app := Refused(WrongEngine));
    CanNow(f, LockOut, s4);
    CanBefore(f, LockOut, s3, BootEvent(YES), s4);
    CanBefore(f, LockOut, s2, BootEvent(YES), s3);
    CanBefore(f, LockOut, s1, BootEvent(YES), s2);
    CanBefore(f, LockOut, s0, Launch(false), s1);
  }

  /** Each fault alone suffices. */
  lemma FaultLocks(f: Faults)
    requires !Harmless(f)
    ensures Can(f, LockOut, if f.failingReads then InstalledStart() else FirstStart())
  {
    hide Can, FirstStart, InstalledStart, Waiting;
    if f.failingReads { FailedReadLocks(f); }
    else if f.unmanagedUpdates { SecondUpdateLocks(f); }
    else if f.unseenQueries { UnseenQueryLocks(f); }
    else if f.unreadRecords { UnreadRecordLocks(f); }
    else if f.keptStops { KeptStopLocks(f); }
    else {
      if f.ambiguousSaves { AmbiguousCommitLocks(f); } else { FailedStopLocks(f); }
      StartToWaiting(f);
    }
  }

  lemma InstalledIsClean()
    ensures StartFor(LockOut, InstalledStart())
  {}

  /** Whatever crashes, exits, damaged files, failed starts and failed saves a run contains, a
      restart is never refused over the running engine, exactly when saves are all-or-nothing,
      stops succeed, no update begins beside an engine that the manager lost, every launch can read
      which version is current, every new manager can read the process record and every manager
      sees the engine whose record it holds, and a stop that takes a live engine for a dead one
      deletes its record.  Losing the record never locks out. */
  lemma NeverLockedOutExactly(f: Faults)
    ensures Never(f, LockOut) <==>
              !f.ambiguousSaves && !f.failingStops && !f.unmanagedUpdates && !f.failingReads
              && !f.unreadRecords && !f.unseenQueries && !f.keptStops
  {
    hide AllowedRun, StartFor, LockedOut, Run, Can, FirstStart, InstalledStart;
    if Harmless(f) {
      forall s, events | StartFor(LockOut, s) && AllowedRun(f, s, events) ensures !Ends(LockOut, s, events) {
        TameRun(f, s, events);
      }
    } else {
      FaultLocks(f);
      FirstIsClean(LockOut);
      InstalledIsClean();
      CanBreaks(f, LockOut, if f.failingReads then InstalledStart() else FirstStart());
    }
  }
}
