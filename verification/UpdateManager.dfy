/** The update and the startup as they run, each effect of theirs a step of the transition system. */
module UpdateManager {
  import opened Texts
  import opened UpdateManifest
  import opened RuntimeModel
  import opened RuntimeInvariant
  import opened RuntimeFaults
  import RuntimeSafety
  import RuntimeEngines
  import opened RuntimeAnswers

  /** The disk and the processes, and beside them the run of the transition system so far. */
  class World {
    const embedded: string
    var disk: Disk
    var engines: Engines
    ghost const origin: Sys
    ghost var events: seq<Event>
    ghost var sys: Sys

    ghost predicate Valid()
      reads this
    {
      && Tracked() && disk == sys.disk && engines == sys.engines
    }

    ghost predicate Tracked()
      reads this
    {
      && sys == Run(origin, events) && Start(origin) && Inv(sys) && sys.embedded == embedded
    }

    constructor (embedded: string, disk: Disk, engines: Engines)
      ensures Valid() && sys == Sys(embedded, disk, engines, Down) && events == []
    {
      this.embedded, this.disk, this.engines := embedded, disk, engines;
      origin, events, sys := Sys(embedded, disk, engines, Down), [], Sys(embedded, disk, engines, Down);
    }

    /** Records that the effects since the last step were event `e`. */
    ghost method Did(e: Event)
      requires Tracked() && Apply(sys, e).disk == disk && Apply(sys, e).engines == engines
      requires Apply(sys, e).embedded == sys.embedded
      modifies `events, `sys
      ensures Valid() && sys == Apply(old(sys), e) && events == old(events) + [e]
    {
      hide Inv, Apply, Run;
      StepKeeps(sys, e);
      RuntimeSafety.RunSnoc(origin, events, e);
      sys, events := Apply(sys, e), events + [e];
    }

    /** Any processes may exit and any files may be damaged at any time. */
    method Environment()
      requires Valid()
      modifies this
      ensures Valid() && old(events) <= events
      ensures !old(sys).app.Ready? ==> sys.app == old(sys).app
      ensures sys.disk.record == old(sys).disk.record && sys.disk.present == old(sys).disk.present
      ensures sys.disk.good <= old(sys).disk.good
    {
      hide Inv, Run;
      var exits: seq<nat> := *;
      while exits != []
        invariant Valid() && old(events) <= events && sys.disk == old(sys).disk
        invariant !old(sys).app.Ready? ==> sys.app == old(sys).app
        decreases |exits|
      {
        engines := Exited(engines, exits[0]);
        Did(EngineExits(exits[0]));
        exits := exits[1..];
      }
      var damaged: set<string> := *;
      disk := disk.(good := disk.good - damaged);
      Did(FilesDamaged(damaged));
    }

    /** What an external call may leave alone: everything but the fields its contract names. */
    twostate predicate Waited()
      reads this
    {
      && Tracked() && old(events) <= events && sys.app == old(sys).app
      && sys.disk.record == old(sys).disk.record && sys.disk.present == old(sys).disk.present
      && sys.disk.good <= old(sys).disk.good
    }

    method SaveRuntimeState(state: Stored) returns (ok: bool, ghost o: SaveOutcome)
      requires Valid() && !sys.app.Ready?
      modifies this
      ensures Waited() && disk == Save(sys.disk, state, o) && engines == sys.engines && ok == (o == Saved)
    {
      Environment();
      var outcome: SaveOutcome := *;
      if outcome != FailedOld { disk := disk.(record := Record(state)); }
      ok, o := outcome == Saved, outcome;
    }

    /** Ends the recorded process; not running counts as stopped, also when a live process was
        taken for a dead one. */
    method Stop() returns (ok: bool, ghost o: StopOutcome)
      requires Valid() && !sys.app.Ready?
      modifies this
      ensures Waited() && disk == sys.disk && engines == StopLast(sys.engines, o) && ok == StopOk(o)
    {
      Environment();
      ok, o := StopNow();
    }

    method StopNow() returns (ok: bool, ghost o: StopOutcome)
      modifies `engines
      ensures engines == StopLast(old(engines), o) && ok == StopOk(o)
    {
      var outcome: StopOutcome := *;
      engines := StopLast(engines, outcome);
      ok, o := StopOk(outcome), outcome;
    }

    /** A new manager, and whether it holds the recorded engine. */
    method NewManager() returns (valid: bool, ghost see: Sight)
      requires Valid() && !sys.app.Ready?
      modifies this
      ensures Waited() && disk == sys.disk && engines == Met(sys.engines, see) && valid == Meets(sys.engines, see)
    {
      Environment();
      var sight: Sight := *;
      valid, see := Meets(engines, sight), sight;
      engines := Met(engines, sight);
    }

    /** A start by a new manager; one that fails leaves no engine of its own. */
    method StartEngine(version: string) returns (ok: bool, ghost o: Outcome)
      requires Valid() && !sys.app.Ready?
      modifies this
      ensures Waited() && disk == sys.disk && o.ok == ok
      ensures engines == if ok then Joined(sys.engines, version) else NotJoined(sys.engines, o)
    {
      Environment();
      ok := *;
      var sight: Sight, drops: bool := *, *;
      o := YES.(ok := ok, see := sight, drops := drops);
      if ok {
        engines := Joined(engines, version);
      } else {
        engines := Met(engines, sight);
        if drops { engines := Unnamed(engines); }
      }
    }

    method IsConnected() returns (connected: bool, ghost again: bool)
      requires Valid() && !sys.app.Ready?
      modifies this
      ensures Waited() && Valid() && connected == (Running(sys) && again)
    {
      Environment();
      connected, again := IsConnectedNow();
    }

    /** The manager asks whether the engine it holds is alive; it may not see a live one. */
    method IsConnectedNow() returns (connected: bool, ghost again: bool)
      ensures connected == (IsNamed(engines) && again)
    {
      var answers: bool := *;
      connected, again := IsNamed(engines) && answers, answers;
    }

    method VerifyInstalledRuntime(version: string) returns (ok: bool, ghost readable: bool)
      requires Valid() && !sys.app.Ready?
      modifies this
      ensures Waited() && Valid() && ok == (readable && Verifies(sys.disk, version))
    {
      Environment();
      var r: bool := *;
      ok, readable := r && version in disk.good, r;
    }

    method ExtractPackage(version: string) returns (ok: bool, ghost second: bool)
      requires Valid() && !sys.app.Ready?
      modifies this
      ensures Waited() && engines == sys.engines
      ensures disk == if ok then Extracted(sys.disk, version, second)
                      else if second then Without(sys.disk, version) else Extracted(sys.disk, version, false)
    {
      Environment();
      ok := *;
      var complete: bool := *;
      if ok {
        disk := Extracted(disk, version, complete);
      } else if complete {
        disk := Without(disk, version);
      } else {
        disk := Extracted(disk, version, false);
      }
      second := complete;
    }

    /** Removes a version directory, which may fail and leave it damaged. */
    method RemoveOld(version: string) returns (ok: bool)
      requires Valid() && !sys.app.Ready?
      modifies this
      ensures Waited() && engines == sys.engines
      ensures disk == if ok then Without(sys.disk, version)
                      else Spoiled(sys.disk, version)
    {
      Environment();
      ok := *;
      disk := if ok then Without(disk, version) else Spoiled(disk, version);
    }

    /** Discards the candidate's directory after a rejection; the result is not looked at. */
    method Discard(version: string) returns (ghost removed: bool)
      modifies `disk
      ensures disk == if removed then Without(old(disk), version) else old(disk)
    {
      var r: bool := *;
      if r { disk := Without(disk, version); }
      removed := r;
    }
  }

  datatype ActivationStatus = Activated | StopFailed | ActivationRolledBack | ActivationRollbackFailed

  /** An outcome in which only the named parts of a step may be other than usual. */
  function Did(ok: bool): Outcome { YES.(ok := ok) }

  function Wrote(o: SaveOutcome, second: bool): Outcome { YES.(save := o, second := second) }

  function Halted(o: StopOutcome): Outcome { YES.(stop := o) }

  function Saw(see: Sight): Outcome { YES.(see := see) }

  /** All the faults that leave the engines apart. */
  const SIGHTED: Faults := Faults(true, true, true, true, true, true, false, false, false, false)

  /** All the faults by which no engine is forgotten. */
  const REMEMBERING: Faults := Faults(true, true, true, true, false, false, false, false, false, false)

  /** One `ApplyPayload` call: its local variables and the hooks it hands to `ActivateRuntime`. */
  class Transaction {
    const w: World
    const candidate: string
    const sha256: string
    const keyId: string
    var stored: Stored
    var wasRunning: bool
    var candidateManager: bool
    var rollbackStrategy: bool
    ghost var selected: string

    constructor (w: World, candidate: string, sha256: string, keyId: string)
      ensures this.w == w && this.candidate == candidate && this.sha256 == sha256 && this.keyId == keyId
      ensures !wasRunning && !candidateManager
    {
      this.w, this.candidate, this.sha256, this.keyId := w, candidate, sha256, keyId;
      stored, wasRunning, candidateManager := Initial(w.embedded), false, false;
      rollbackStrategy := *;
    }

    /** The transaction stands at step `at` with exactly these local variables. */
    ghost predicate Stands(at: UpdateAt)
      reads this, w
    {
      && w.Valid() && InUpdate() && w.sys.app.at == at
    }

    ghost predicate InUpdate()
      reads this, w
    {
      && w.sys.app.Updating?
      && var u := w.sys.app.update;
         u.stored == stored && u.candidate == candidate && u.sha256 == sha256 && u.keyId == keyId
         && u.wasRunning == wasRunning && u.owned == candidateManager && w.sys.app.selected == selected
    }

    // ---- the activation hooks -------------------------------------------------------

    method StopHook() returns (ok: bool)
      requires Stands(StopCurrent)
      modifies w
      ensures old(w.events) <= w.events
      ensures if ok then Stands(StartCandidate) else Stands(SaveRolledBack(StopRejected))
    {
      hide Inv, Run, Newer, Lower, BootStep, Connect, Disconnect, BeginUpdate, Cleaned, KeepSet;
      if !wasRunning {
        w.Did(UpdateEvent(Did(true)));
        return true;
      }
      ghost var o;
      ok, o := w.Stop();
      w.Did(UpdateEvent(Halted(o)));
    }

    method StartCandidateHook() returns (ok: bool)
      requires Stands(StartCandidate)
      modifies w, this`candidateManager
      ensures old(w.events) <= w.events
      ensures if ok then Stands(CandidateHealth) else Stands(StopCandidate)
    {
      hide Inv, Run, Newer, Lower, BootStep, Connect, Disconnect, BeginUpdate, Cleaned, KeepSet;
      ok := true;
      ghost var o := YES;
      if wasRunning {
        OwnedLater(w.sys);
        ok, o := w.StartEngine(candidate);
        candidateManager := ok;
      }
      w.Did(UpdateEvent(o));
    }

    method CandidateHealthHook() returns (ok: bool)
      requires Stands(CandidateHealth)
      modifies w
      ensures old(w.events) <= w.events
      ensures if ok then Stands(Commit) else Stands(StopCandidate)
    {
      hide Inv, Run, Newer, Lower, BootStep, Connect, Disconnect, BeginUpdate, Cleaned, KeepSet;
      ok := true;
      if wasRunning {
        ghost var again;
        var connected;
        connected, again := w.IsConnected();
        var identity: bool := *;
        ok := identity && candidateManager && connected;
        w.Did(UpdateEvent(Did(identity && again)));
      } else {
        w.Did(UpdateEvent(Did(true)));
      }
    }

    method CommitHook() returns (ok: bool)
      requires Stands(Commit)
      modifies w
      ensures old(w.events) <= w.events
      ensures if ok then Stands(Done(Applied)) else Stands(StopCandidate)
    {
      hide Inv, Run, Newer, Lower, BootStep, Connect, Disconnect, BeginUpdate, Cleaned, KeepSet;
      var finalState := stored.(current := candidate, previousKnownGood := stored.current, pending := "",
                                packageSha256 := sha256, manifestKeyId := keyId,
                                lastResult := "payload-update-committed");
      ghost var o;
      ok, o := w.SaveRuntimeState(finalState);
      w.Did(UpdateEvent(Wrote(o, false)));
    }

    /** The candidate's process must be gone before the previous runtime is started. */
    method StopCandidateFirst() returns (ok: bool)
      requires Stands(StopCandidate) && wasRunning
      modifies w, this`candidateManager
      ensures old(w.events) <= w.events
      ensures if ok then Stands(StartPrevious) else Stands(StopLeftover(false))
    {
      hide Inv, Run, Newer, Lower, BootStep, Connect, Disconnect, BeginUpdate, Cleaned, KeepSet;
      if !candidateManager {
        w.Did(UpdateEvent(Did(true)));
        return true;
      }
      ghost var o;
      ok, o := w.Stop();
      candidateManager := !ok;
      w.Did(UpdateEvent(Halted(o)));
    }

    /** Restarts the previous runtime, after the candidate is known to be gone. */
    method StartPreviousHook() returns (ok: bool)
      requires Stands(StopCandidate)
      modifies w, this`candidateManager
      ensures old(w.events) <= w.events
      ensures if !wasRunning then ok && Stands(StopLeftover(true))
              else if ok then Stands(PreviousHealth) else Stands(StopLeftover(false))
    {
      hide Inv, Run, Newer, Lower, BootStep, Connect, Disconnect, BeginUpdate, Cleaned, KeepSet;
      if !wasRunning {
        w.Did(UpdateEvent(Did(true)));
        return true;
      }
      ok := StopCandidateFirst();
      if !ok { return; }
      if !rollbackStrategy {
        w.Did(UpdateEvent(Did(false)));
        return false;
      }
      ghost var o;
      ok, o := w.StartEngine(stored.current);
      w.Did(UpdateEvent(o));
    }

    /** True exactly when the restarted engine has been found alive. */
    method PreviousHealthHook() returns (ok: bool)
      requires if wasRunning then Stands(PreviousHealth) else Stands(StopLeftover(true))
      modifies w
      ensures old(w.events) <= w.events
      ensures Stands(StopLeftover(ok)) && ok == (wasRunning ==> Happened(w.origin, w.events).alive)
    {
      hide Inv, Run, Newer, Lower, BootStep, Connect, Disconnect, BeginUpdate, Cleaned, KeepSet, Told;
      if !wasRunning { return true; }
      ghost var again;
      var connected;
      connected, again := w.IsConnected();
      var readable: bool := *;
      w.Did(UpdateEvent(Did(readable && again)));
      ok := readable && connected;
      LeftoverTold(this, ok);
    }

    // ---- src/update/RuntimeActivation.cpp -------------------------------------------

    method Rollback() returns (status: ActivationStatus)
      requires Stands(StopCandidate)
      modifies w, this`candidateManager
      ensures old(w.events) <= w.events
      ensures status == ActivationRolledBack || status == ActivationRollbackFailed
      ensures Stands(StopLeftover(status == ActivationRolledBack))
      ensures (status == ActivationRolledBack) == (wasRunning ==> Happened(w.origin, w.events).alive)
    {
      hide *;
      var restarted := StartPreviousHook();
      if restarted {
        var healthy := PreviousHealthHook();
        if healthy { return ActivationRolledBack; }
      }
      LeftoverTold(this, false);
      return ActivationRollbackFailed;
    }

    /** `ActivateRuntime` with its preflight hook true, as the caller verified the files. */
    method ActivateRuntime() returns (status: ActivationStatus)
      requires Stands(StopCurrent)
      modifies w, this`candidateManager
      ensures old(w.events) <= w.events
      ensures match status
              case Activated => Stands(Done(Applied))
              case StopFailed => Stands(SaveRolledBack(StopRejected))
              case ActivationRolledBack => Stands(StopLeftover(true))
              case ActivationRollbackFailed => Stands(StopLeftover(false))
    {
      hide *;
      var stopped := StopHook();
      if !stopped { return StopFailed; }
      var started := StartCandidateHook();
      if !started {
        status := Rollback();
        return;
      }
      var healthy := CandidateHealthHook();
      if !healthy {
        status := Rollback();
        return;
      }
      var committed := CommitHook();
      if !committed {
        status := Rollback();
        return;
      }
      return Activated;
    }

    // ---- src/update/UpdateManager.cpp -----------------------------------------------

    /** Removes an old candidate directory, extracts the package and verifies the result. */
    method Prepare(managed: bool) returns (failure: Option<Status>)
      requires Stands(RemoveOld) && w.sys.app.managed == managed && !wasRunning && !candidateManager
      modifies w, this`wasRunning
      ensures old(w.events) <= w.events
      ensures if failure.None? then Stands(SavePending) else Stands(Done(failure.value))
    {
      hide Inv, Run, Newer, Lower, BootStep, Connect, Disconnect, BeginUpdate, Cleaned, KeepSet;
      if Lower(candidate) in w.disk.present {
        var removed := w.RemoveOld(candidate);
        w.Did(UpdateEvent(Did(removed)));
        if !removed { return Some(PackageRejected); }
      } else {
        w.Did(UpdateEvent(Did(true)));
      }
      failure := ExtractCandidate(managed);
    }

    method ExtractCandidate(managed: bool) returns (failure: Option<Status>)
      requires Stands(Extract) && w.sys.app.managed == managed && !wasRunning && !candidateManager
      modifies w, this`wasRunning
      ensures old(w.events) <= w.events
      ensures if failure.None? then Stands(SavePending) else Stands(Done(failure.value))
    {
      hide Inv, Run, Newer, Lower, BootStep, Connect, Disconnect, BeginUpdate, Cleaned, KeepSet;
      ghost var second;
      var extracted;
      extracted, second := w.ExtractPackage(candidate);
      w.Did(UpdateEvent(YES.(ok := extracted, second := second)));
      if !extracted { return Some(PackageRejected); }
      failure := VerifyCandidate(managed);
    }

    /** The candidate's files must verify, and its catalog must hold a usable strategy; then the
        manager is asked whether an engine runs. */
    method VerifyCandidate(managed: bool) returns (failure: Option<Status>)
      requires Stands(Verify) && w.sys.app.managed == managed && !wasRunning && !candidateManager
      modifies w, this`wasRunning
      ensures old(w.events) <= w.events
      ensures if failure.None? then Stands(SavePending) else Stands(Done(failure.value))
    {
      hide Inv, Run, Newer, Lower, BootStep, Connect, Disconnect, BeginUpdate, Cleaned, KeepSet;
      ghost var readable;
      var installed;
      installed, readable := w.VerifyInstalledRuntime(candidate);
      var usable: bool := *;
      if !installed || !usable {
        ghost var removed := w.Discard(candidate);
        w.Did(UpdateEvent(YES.(ok := readable && usable, second := removed)));
        return Some(PreflightRejected);
      }
      ghost var again;
      var connected;
      connected, again := w.IsConnectedNow();
      wasRunning := managed && connected;
      w.Did(UpdateEvent(YES.(again := again)));
      return None;
    }

    /** Records the pending version; for an installed runtime that runs, its files must verify
        so that a rollback can restart it. */
    method RecordPending() returns (failure: Option<Status>)
      requires Stands(SavePending)
      modifies w
      ensures old(w.events) <= w.events
      ensures if failure.None? then Stands(StopCurrent) else Stands(Done(failure.value))
    {
      hide Inv, Run, Newer, Lower, BootStep, Connect, Disconnect, BeginUpdate, Cleaned, KeepSet;
      var pending := stored.(pending := candidate, packageSha256 := sha256, manifestKeyId := keyId,
                             lastResult := "candidate-preflight-ok");
      ghost var o;
      var saved;
      saved, o := w.SaveRuntimeState(pending);
      if !saved {
        ghost var removed := w.Discard(candidate);
        w.Did(UpdateEvent(Wrote(o, removed)));
        return Some(PreflightRejected);
      }
      w.Did(UpdateEvent(Wrote(o, false)));
      if wasRunning && stored.current != w.embedded {
        failure := VerifyPreviousRuntime(pending);
      } else {
        return None;
      }
    }

    method VerifyPreviousRuntime(pending: Stored) returns (failure: Option<Status>)
      requires Stands(VerifyPrevious) && pending == PendingState(w.sys.app.update)
      modifies w
      ensures old(w.events) <= w.events
      ensures if failure.None? then Stands(StopCurrent) else Stands(Done(failure.value))
    {
      hide Inv, Run, Newer, Lower, BootStep, Connect, Disconnect, BeginUpdate, Cleaned, KeepSet;
      ghost var readable;
      var verified;
      verified, readable := w.VerifyInstalledRuntime(stored.current);
      w.Did(UpdateEvent(Did(readable)));
      if verified { return None; }
      ghost var o;
      var saved;
      saved, o := w.SaveRuntimeState(pending.(pending := "", lastResult := "previous-runtime-preflight-failed"));
      w.Did(UpdateEvent(Wrote(o, false)));
      return Some(if saved then PreflightRejected else RollbackFailed);
    }

    method StopLeftoverCandidate(ghost restarted: bool)
      requires Stands(StopLeftover(restarted))
      modifies w
      ensures old(w.events) <= w.events
      ensures Stands(SaveRolledBack(if restarted then RolledBack else RollbackFailed))
    {
      hide Inv, Run, Newer, Lower, BootStep, Connect, Disconnect, BeginUpdate, Cleaned, KeepSet;
      var connected := false;
      ghost var again := true;
      if candidateManager { connected, again := w.IsConnected(); }
      if connected {
        ghost var leftover;
        var stopped;
        stopped, leftover := w.Stop();
        w.Did(UpdateEvent(Halted(leftover)));
      } else if candidateManager {
        w.Did(UpdateEvent(YES.(again := again)));
      } else {
        w.Did(UpdateEvent(Did(true)));
      }
    }

    /** After a failed activation: a candidate that still runs is stopped and the old state saved. */
    method RestoreState(activated: ActivationStatus) returns (status: Status)
      requires activated != Activated
      requires match activated
               case StopFailed => Stands(SaveRolledBack(StopRejected))
               case ActivationRolledBack => Stands(StopLeftover(true))
               case _ => Stands(StopLeftover(false))
      modifies w
      ensures old(w.events) <= w.events
      ensures Stands(Done(status))
    {
      hide *;
      if activated != StopFailed { StopLeftoverCandidate(activated == ActivationRolledBack); }
      status := SaveRestoredState(match activated
                                  case StopFailed => StopRejected
                                  case ActivationRolledBack => RolledBack
                                  case _ => RollbackFailed);
    }

    method SaveRestoredState(result: Status) returns (status: Status)
      requires Stands(SaveRolledBack(result))
      modifies w
      ensures old(w.events) <= w.events
      ensures Stands(Done(status))
    {
      hide Inv, Run, Newer, Lower, BootStep, Connect, Disconnect, BeginUpdate, Cleaned, KeepSet;
      var rolledBack := stored.(pending := "", packageSha256 := sha256,
                                lastResult := if result == RollbackFailed then "payload-rollback-failed"
                                              else "payload-update-rolled-back");
      ghost var o;
      var restored;
      restored, o := w.SaveRuntimeState(rolledBack);
      w.Did(UpdateEvent(Wrote(o, false)));
      return if restored then result else RollbackFailed;
    }

    /** Runs the transaction up to its answer. */
    method RunToAnswer(managed: bool) returns (status: Status)
      requires Stands(RemoveOld) && w.sys.app.managed == managed && !wasRunning && !candidateManager
      modifies w, this`wasRunning, this`candidateManager
      ensures old(w.events) <= w.events
      ensures Stands(Done(status)) && Deserved(status, Happened(w.origin, w.events), wasRunning)
    {
      hide *;
      var failure := Prepare(managed);
      if failure.Some? {
        AnswerTold(this, failure.value);
        return failure.value;
      }
      failure := RecordPending();
      if failure.Some? {
        AnswerTold(this, failure.value);
        return failure.value;
      }
      var activated := ActivateRuntime();
      status := Applied;
      if activated != Activated { status := RestoreState(activated); }
      AnswerTold(this, status);
    }

    /** `ApplyPayload` for a launcher that is ready.  Its answer tells what is current now,
        whatever its external calls answered, and two engines are never alive as long as every one
        was seen.  It is rejected with no effect exactly when the manifest or the package is not
        trusted, the state is unreadable or the candidate is not newer; otherwise each answer is given
        exactly when what it says has happened in the first `answered` events. */
    method ApplyPayload(trusted: bool, packageOk: bool, managed: bool) returns (status: Status, ghost answered: nat)
      requires w.Valid() && w.sys.app.Ready? && w.sys.app.managed == managed && !wasRunning && !candidateManager
      modifies w, this
      ensures w.Valid() && w.sys.app.Ready? && old(w.events) <= w.events
      ensures |w.origin.engines.live| <= 1 && AllowedRun(SIGHTED, w.origin, w.events) ==> |w.engines.live| <= 1
      ensures status == Applied ==>
                w.disk.record.Record? && w.disk.record.state.current == candidate
                && w.disk.record.state.previousKnownGood == CurrentOf(w.embedded, old(w.disk.record))
                && w.disk.record.state.pending == "" && w.sys.app.selected == candidate
      ensures status != Applied && status != RollbackFailed ==>
                CurrentOf(w.embedded, w.disk.record) == CurrentOf(w.embedded, old(w.disk.record))
      ensures status == RolledBack || status == StopRejected ==> NothingPending(w.disk.record)
      ensures status != Applied ==> w.sys.app.selected == old(w.sys.app.selected)
      ensures answered <= |w.events|
      ensures w.events == old(w.events) <==>
                !trusted || !packageOk || old(w.disk).record.Damaged?
                || !Newer(candidate, CurrentOf(w.embedded, old(w.disk).record))
      ensures if w.events == old(w.events) then status == PreflightRejected || status == PackageRejected
              else Deserved(status, Happened(w.origin, w.events[..answered]), wasRunning)
    {
      hide Happened, Deserved, AllowedRun, Run, Newer, Lower, BootStep, Connect, Disconnect, Cleaned, KeepSet, UpdateStep, Inv;
      Apart(w);
      var failure := RejectEarly(trusted, packageOk);
      if failure.Some? { return failure.value, 0; }
      selected := w.sys.app.selected;
      w.Did(BeginEvent(candidate, sha256, keyId, true));
      status, answered := AnswerAndReturn(managed);
      Apart(w);
    }

    /** The checks before the first effect. */
    method RejectEarly(trusted: bool, packageOk: bool) returns (failure: Option<Status>)
      requires w.Valid()
      modifies this`stored
      ensures failure.Some? ==> failure.value == PreflightRejected || failure.value == PackageRejected
      ensures failure.Some? ==>
                !trusted || !packageOk || w.disk.record.Damaged? || !Newer(candidate, CurrentOf(w.embedded, w.disk.record))
      ensures failure.None? ==>
                && trusted && packageOk && !w.disk.record.Damaged? && Newer(candidate, stored.current)
                && stored == (if w.disk.record.Record? then w.disk.record.state else Initial(w.embedded))
    {
      hide Newer, Run, Inv;
      if !trusted || w.disk.record.Damaged? { return Some(PreflightRejected); }
      stored := if w.disk.record.Record? then w.disk.record.state else Initial(w.embedded);
      if !Newer(candidate, stored.current) { return Some(PreflightRejected); }
      return if packageOk then None else Some(PackageRejected);
    }

    method AnswerAndReturn(managed: bool) returns (status: Status, ghost answered: nat)
      requires Stands(RemoveOld) && w.sys.app.managed == managed && !wasRunning && !candidateManager
      modifies w, this`wasRunning, this`candidateManager
      ensures w.Valid() && w.sys.app.Ready? && old(w.events) <= w.events
      ensures status == Applied ==>
                w.disk.record.Record? && w.disk.record.state.current == candidate
                && w.disk.record.state.previousKnownGood == stored.current && w.disk.record.state.pending == ""
      ensures status != Applied && status != RollbackFailed ==> CurrentOf(w.embedded, w.disk.record) == stored.current
      ensures status == RolledBack || status == StopRejected ==> NothingPending(w.disk.record)
      ensures w.sys.app.selected == if status == Applied then candidate else selected
      ensures |old(w.events)| <= answered <= |w.events|
      ensures Deserved(status, Happened(w.origin, w.events[..answered]), wasRunning)
    {
      hide Happened, Deserved, Run, Newer, Inv, Lower;
      status := RunToAnswer(managed);
      RuntimeSafety.AnswerMeans(w.origin, w.events);
      answered := |w.events|;
      ghost var events := w.events;
      Return(status);
      assert w.events[..answered] == events;
    }

    /** The caller's reaction to the answer: a new manager after a commit or a rollback. */
    method Return(status: Status)
      requires Stands(Done(status))
      modifies w
      ensures w.Valid() && w.sys.app.Ready? && old(w.events) <= w.events && w.disk.record == old(w.disk.record)
      ensures w.sys.app.selected == if status == Applied then candidate else selected
    {
      hide Inv, Run, Lower, Save, StopLast;
      if status == Applied || status == RolledBack {
        ghost var see;
        var valid;
        valid, see := w.NewManager();
        w.Did(UpdateEvent(Saw(see)));
      } else {
        w.Did(UpdateEvent(Did(true)));
      }
    }
  }

  lemma OwnedLater(s: Sys)
    requires Inv(s) && s.app.Updating?
    ensures s.app.at == StartCandidate ==> !s.app.update.owned
  {}

  lemma LeftoverTold(tr: Transaction, ok: bool)
    requires tr.Stands(StopLeftover(ok))
    ensures ok == (tr.wasRunning ==> Happened(tr.w.origin, tr.w.events).alive)
  {
    hide Run, Happened;
    ToldRun(tr.w.origin, tr.w.events);
  }

  lemma AnswerTold(tr: Transaction, status: Status)
    requires tr.Stands(Done(status))
    ensures Deserved(status, Happened(tr.w.origin, tr.w.events), tr.wasRunning)
  {
    hide Run, Happened, Inv;
    AnswerExactly(tr.w.origin, tr.w.events);
  }

  /** Runs in which every engine is seen have one at most. */
  lemma Apart(w: World)
    requires w.Valid()
    ensures |w.origin.engines.live| <= 1 && AllowedRun(SIGHTED, w.origin, w.events) ==> |w.engines.live| <= 1
  {
    hide Run, AllowedRun, RuntimeEngines.AloneAt;
    if |w.origin.engines.live| <= 1 && AllowedRun(SIGHTED, w.origin, w.events) {
      RuntimeEngines.AloneRun(SIGHTED, w.origin, w.events);
    }
  }
}
