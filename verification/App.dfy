/** The launcher's startup and its cleanup as they run. */
module App {
  import opened Texts
  import opened RuntimeModel
  import opened RuntimeInvariant
  import opened RuntimeFaults
  import RuntimeSafety
  import RuntimeEngines
  import opened RuntimeStartup
  import opened UpdateManager

  class Launcher {
    const w: World
    var selected: string
    var managed: bool

    constructor (w: World)
      ensures this.w == w
    {
      this.w, selected, managed := w, "", false;
    }

    /** The constructor stands at `at` with the loaded state and the selected version. */
    ghost predicate Stands(at: BootAt, loaded: StateFile)
      reads this, w
    {
      w.Valid() && w.sys.app == Boot(at, loaded, selected)
    }

    ghost predicate Fails(refusal: Refusal)
      reads w
    {
      w.Valid() && w.sys.app == RuntimeModel.Refused(refusal)
    }

    /** An interrupted update is never promoted: its engine is stopped and the mark is cleared. */
    method RecoverPending(state: Stored) returns (refusal: Option<Refusal>)
      requires Stands(Loaded, Record(state)) && state.pending != ""
      modifies w
      ensures old(w.events) <= w.events
      ensures if refusal.None? then Stands(CheckCurrent, Record(state)) else Fails(refusal.value)
    {
      hide Inv, Run, Lower, UpdateStep, Connect, Disconnect, BeginUpdate, Cleaned, KeepSet;
      ghost var see;
      var valid;
      valid, see := w.NewManager();
      var running := if valid then w.engines.live[|w.engines.live| - 1] else "";
      var action := DecidePendingRecovery(true, valid, running, state.pending, state.current);
      w.Did(BootEvent(Saw(see)));
      if action == RefuseUnknown { return Some(UnknownRuntime); }
      if action == StopPendingRuntime {
        ghost var o;
        var stopped;
        stopped, o := w.Stop();
        w.Did(BootEvent(Halted(o)));
        if !stopped { return Some(PendingNotStopped); }
      }
      ghost var o;
      var saved;
      saved, o := w.SaveRuntimeState(state.(pending := "", lastResult := "interrupted-pending-rolled-back"));
      w.Did(BootEvent(Wrote(o, false)));
      return if saved then None else Some(PendingNotCleared);
    }

    /** The selected runtime must verify, or the fallback must, and then becomes current. */
    method CheckIntegrity(loaded: StateFile) returns (refusal: Option<Refusal>)
      requires Stands(CheckCurrent, loaded)
      modifies w, this`selected
      ensures old(w.events) <= w.events
      ensures if refusal.None? then Stands(FinalCheck, loaded) else Fails(refusal.value)
    {
      hide Inv, Run, Lower, UpdateStep, Connect, Disconnect, BeginUpdate, Cleaned, KeepSet;
      var verified := false;
      ghost var readable := true;
      if selected != w.embedded { verified, readable := w.VerifyInstalledRuntime(selected); }
      var action := DecideIntegrityRecovery(selected == w.embedded, verified, loaded.Record?,
                                            loaded.Record? && loaded.state.previousKnownGood != "");
      w.Did(BootEvent(Did(readable)));
      if action == RefuseStart { return Some(NoFallback); }
      if action == RollbackToPrevious { refusal := RollbackToFallback(loaded.state); } else { refusal := None; }
    }

    method RollbackToFallback(state: Stored) returns (refusal: Option<Refusal>)
      requires Stands(CheckFallback, Record(state))
      modifies w, this`selected
      ensures old(w.events) <= w.events
      ensures if refusal.None? then Stands(FinalCheck, Record(state)) else Fails(refusal.value)
    {
      hide Inv, Run, Lower, UpdateStep, Connect, Disconnect, BeginUpdate, Cleaned, KeepSet;
      var ok := PrepareFallback(state);
      if !ok { return Some(FallbackDamaged); }
      refusal := ReconcileEngine(state);
      if refusal.Some? { return; }
      ghost var o;
      var saved;
      saved, o := w.SaveRuntimeState(state.(current := state.previousKnownGood, previousKnownGood := "",
                                            pending := "", lastResult := "startup-integrity-rollback"));
      w.Did(BootEvent(Wrote(o, false)));
      if !saved { return Some(FallbackNotSaved); }
      selected := state.previousKnownGood;
      return None;
    }

    /** The embedded fallback is extracted again; an installed one must verify. */
    method PrepareFallback(state: Stored) returns (ok: bool)
      requires Stands(CheckFallback, Record(state))
      modifies w
      ensures old(w.events) <= w.events
      ensures if ok then Stands(Reconcile, Record(state)) else Fails(FallbackDamaged)
    {
      hide Inv, Run, Lower, UpdateStep, Connect, Disconnect, BeginUpdate, Cleaned, KeepSet;
      var fallback := state.previousKnownGood;
      if fallback == w.embedded {
        ok := *;
        if ok { w.disk := Extracted(w.disk, fallback, true); }
        w.Did(BootEvent(Did(ok)));
      } else {
        ghost var readable;
        ok, readable := w.VerifyInstalledRuntime(fallback);
        w.Did(BootEvent(Did(readable)));
      }
    }

    /** `CommitIntegrityRecovery` up to the save. */
    method ReconcileEngine(state: Stored) returns (refusal: Option<Refusal>)
      requires Stands(Reconcile, Record(state))
      modifies w
      ensures old(w.events) <= w.events
      ensures if refusal.None? then Stands(SaveFallback, Record(state)) else Fails(refusal.value)
    {
      hide Inv, Run, Lower, UpdateStep, Connect, Disconnect, BeginUpdate, Cleaned, KeepSet;
      ghost var see;
      var valid;
      valid, see := w.NewManager();
      if valid && !SameImage(w.engines.live[|w.engines.live| - 1], state.previousKnownGood) {
        if !SameImage(w.engines.live[|w.engines.live| - 1], selected) {
          w.Did(BootEvent(Saw(see)));
          return Some(UnknownRuntime);
        }
        ghost var o;
        var stopped;
        stopped, o := w.StopNow();
        w.Did(BootEvent(Halted(o)));
        return if stopped then None else Some(CurrentNotStopped);
      }
      w.Did(BootEvent(Saw(see)));
      return None;
    }

    /** The last checks: the configuration, and that the engine which the launcher's manager holds
        and sees is the selected one. */
    method Finish(loaded: StateFile) returns (refusal: Option<Refusal>)
      requires Stands(FinalCheck, loaded)
      modifies w, this`managed
      ensures old(w.events) <= w.events && w.disk.record == old(w.disk.record)
      ensures managed ==> IsNamed(w.engines)
      ensures Checked(w.origin, w.events)
      ensures if refusal.None? then
                w.Valid() && w.sys.app == Ready(selected, managed)
                && (managed && w.events[|w.events| - 1].o.again ==>
                      SameImage(w.engines.live[|w.engines.live| - 1], selected))
              else Fails(refusal.value)
    {
      hide Inv, Run, Lower, UpdateStep, Connect, Disconnect, BeginUpdate, Cleaned, KeepSet;
      var configured: bool := *;
      if !configured {
        managed := false;
        RuntimeSafety.RunSnoc(w.origin, w.events, BootEvent(Did(false)));
        w.Did(BootEvent(Did(false)));
        return Some(ConfigNotSaved);
      }
      ghost var see, again;
      var connected;
      managed, see := w.NewManager();
      connected, again := w.IsConnectedNow();
      var engineOk := !managed || !connected || SameImage(w.engines.live[|w.engines.live| - 1], selected);
      w.Did(BootEvent(YES.(see := see, again := again)));
      return if engineOk then None else Some(WrongEngine);
    }

    /** The second read of the state: it must work, and a state with nothing pending needs no
        recovery. */
    method AcceptState(loaded: StateFile) returns (refusal: Option<Refusal>)
      requires Stands(Loaded, loaded)
      modifies w
      ensures old(w.events) <= w.events
      ensures if refusal.None? then Stands(CheckCurrent, loaded) else Fails(refusal.value)
    {
      hide Inv, Run, Lower, UpdateStep, Connect, Disconnect, BeginUpdate, Cleaned, KeepSet;
      var read: bool := *;
      if !read || loaded.Damaged? {
        w.Did(BootEvent(Did(read)));
        return Some(StateUnreadable);
      }
      if loaded.Record? && loaded.state.pending != "" {
        refusal := RecoverPending(loaded.state);
      } else {
        w.Did(BootEvent(Did(true)));
        refusal := None;
      }
    }

    /** `App::App`: load, recover an interrupted update, recover a damaged runtime, check.  As long
        as no engine has been forgotten, every live one is of the selected version; and if its calls
        all work, it starts whenever a version can be run. */
    method Startup() returns (refusal: Option<Refusal>)
      requires w.Valid() && (w.sys.app.Down? || w.sys.app.Refused?)
      modifies w, this
      ensures old(w.events) <= w.events
      ensures |w.events| > |old(w.events)| && w.events[|old(w.events)|].Launch?
      ensures Worked(old(w.sys), w.events[|old(w.events)|..]) ==> StartedWell(old(w.sys), w.sys)
      ensures |w.origin.engines.live| <= 1 && AllowedRun(SIGHTED, w.origin, w.events) ==> |w.engines.live| <= 1
      ensures refusal.Some? ==> Fails(refusal.value)
      ensures refusal.None? ==>
                && w.Valid() && w.sys.app == Ready(selected, managed)
                && NothingPending(w.disk.record)
                && selected == (if RuntimeSafety.LastRead(w.origin, w.events) then CurrentOf(w.embedded, w.disk.record) else w.embedded)
                && (managed ==> IsNamed(w.engines)) && Checked(w.origin, w.events)
                && (managed && w.events[|w.events| - 1].o.again ==>
                      SameImage(w.engines.live[|w.engines.live| - 1], selected))
                && (StartFor(Stranger, w.origin) && AllowedRun(REMEMBERING, w.origin, w.events) ==> !HasStranger(w.sys))
    {
      hide RuntimeSafety.LastRead, Checked, StartFor, AllowedRun, HasStranger, Worked, StartedWell;
      hide Inv, Run, Lower, BootStep, UpdateStep, Connect, Disconnect, BeginUpdate, Cleaned, KeepSet;
      ghost var s, before := w.sys, w.events;
      var state := w.disk.record;
      var read: bool := *;
      selected := if read then CurrentOf(w.embedded, state) else w.embedded;
      w.Did(Launch(read));
      assert w.events == before + [Launch(read)];
      refusal := Continue(state);
      Apart(w);
      WellStarted(w, s, before);
    }

    /** The startup after the version has been selected. */
    method Continue(state: StateFile) returns (refusal: Option<Refusal>)
      requires Stands(Loaded, state)
      modifies w, this
      ensures old(w.events) <= w.events
      ensures refusal.Some? ==> Fails(refusal.value)
      ensures refusal.None? ==>
                && w.Valid() && w.sys.app == Ready(selected, managed)
                && NothingPending(w.disk.record)
                && selected == (if RuntimeSafety.LastRead(w.origin, w.events) then CurrentOf(w.embedded, w.disk.record) else w.embedded)
                && (managed ==> IsNamed(w.engines)) && Checked(w.origin, w.events)
                && (managed && w.events[|w.events| - 1].o.again ==>
                      SameImage(w.engines.live[|w.engines.live| - 1], selected))
                && (StartFor(Stranger, w.origin) && AllowedRun(REMEMBERING, w.origin, w.events) ==> !HasStranger(w.sys))
    {
      hide RuntimeSafety.LastRead, Checked, StartFor, AllowedRun, HasStranger;
      hide Inv, Run, Lower, BootStep, UpdateStep, Connect, Disconnect, BeginUpdate, Cleaned, KeepSet;
      refusal := AcceptState(state);
      if refusal.Some? { return; }
      refusal := CheckIntegrity(state);
      if refusal.Some? { return; }
      refusal := Finish(state);
      if refusal.None? {
        Settled(w.origin, w.events);
        NoStrangerHere(w);
      }
    }
  }

  /** The events of a startup, over an engine of the current or of the pending version or none, whose
      calls all worked. */
  ghost predicate Worked(s: Sys, startup: seq<Event>) {
    Explained(s) && startup != [] && startup[0] == Launch(true) && AllWork(s, startup[1..])
  }

  lemma WellStarted(w: World, s: Sys, before: seq<Event>)
    requires w.Valid() && before <= w.events && s == Run(w.origin, before) && (s.app.Down? || s.app.Refused?)
    requires !w.sys.app.Boot?
    ensures Worked(s, w.events[|before|..]) ==> StartedWell(s, w.sys)
  {
    hide Run, Explained, AllWork, StartedWell, Steps;
    var startup := w.events[|before|..];
    if Worked(s, startup) {
      assert w.events == before + startup && startup == [Launch(true)] + startup[1..];
      RunConcat(w.origin, before, startup);
      StartupExactly(s, startup[1..]);
    }
  }

  /** The last event was the last check of a startup. */
  ghost predicate Checked(origin: Sys, events: seq<Event>) {
    events != [] && events[|events| - 1].BootEvent?
    && var s := Run(origin, events[..|events| - 1]);
       s.app.Boot? && s.app.boot.FinalCheck?
  }

  lemma Settled(origin: Sys, events: seq<Event>)
    requires Start(origin) && Checked(origin, events) && Run(origin, events).app.Ready?
    ensures var s := Run(origin, events);
            NothingPending(s.disk.record)
            && s.app.selected == if RuntimeSafety.LastRead(origin, events) then CurrentVersion(s) else s.embedded
  {
    hide Run, Apply, RuntimeSafety.LastRead;
    var front, e := events[..|events| - 1], events[|events| - 1];
    assert events == front + [e];
    RuntimeSafety.RunSnoc(origin, front, e);
    RuntimeSafety.StartupMeans(origin, front, e);
    RuntimeSafety.ReadKept(origin, front, e);
  }

  lemma NoStrangerHere(w: World)
    requires w.Valid() && Checked(w.origin, w.events)
    ensures StartFor(Stranger, w.origin) && AllowedRun(REMEMBERING, w.origin, w.events) ==> !HasStranger(w.sys)
  {
    hide Run, AllowedRun, StartFor, HasStranger;
    if StartFor(Stranger, w.origin) && AllowedRun(REMEMBERING, w.origin, w.events) {
      RuntimeEngines.HeldRun(REMEMBERING, w.origin, w.events);
    }
  }

  // ---- src/core/ResourceExtractor.cpp: CleanupOldVersions -------------------------------

  /** What the loop has left to do, whatever the number of removals that will succeed. */
  ghost predicate CleaningGoesOn(d0: Disk, keep: seq<string>, names: seq<string>, d: Disk, i: nat, removed: nat)
    requires i <= |names|
  {
    forall n: nat :: n >= removed ==> Cleaned(d0, keep, names, n) == Cleaned(d, keep, names[i..], n - removed)
  }

  lemma CleaningStep(d0: Disk, keep: seq<string>, names: seq<string>, d: Disk, i: nat, removed: nat)
    requires i < |names| && CleaningGoesOn(d0, keep, names, d, i, removed)
    ensures Kept(keep, names[i]) ==> CleaningGoesOn(d0, keep, names, d, i + 1, removed)
    ensures !Kept(keep, names[i]) ==> CleaningGoesOn(d0, keep, names, Without(d, names[i]), i + 1, removed + 1)
    ensures !Kept(keep, names[i]) ==>
              Cleaned(d0, keep, names, removed) == Spoiled(d, names[i])
  {
    hide Kept, Lower;
    assert names[i..][1..] == names[i + 1..];
    forall n: nat | n >= removed
      ensures Cleaned(d0, keep, names, n) == Cleaned(d, keep, names[i..], n - removed)
    {}
  }

  lemma CleaningDone(d0: Disk, keep: seq<string>, names: seq<string>, d: Disk, removed: nat)
    requires CleaningGoesOn(d0, keep, names, d, |names|, removed) && removed <= |names|
    ensures Cleaned(d0, keep, names, |names|) == d
  {
    assert names[|names|..] == [];
  }

  lemma CleaningBegins(d0: Disk, keep: seq<string>, names: seq<string>)
    ensures CleaningGoesOn(d0, keep, names, d0, 0, 0)
  {
    assert names[0..] == names;
  }

  /** Removes every listed version directory that is not kept, and stops at a removal that fails. */
  method CleanupOldVersions(w: World, selected: string, names: seq<string>)
    returns (ok: bool, removed: nat, ghost seen: bool)
    requires w.Valid() && w.sys.app.Ready? && w.sys.app.selected == selected
    modifies w
    ensures w.Valid() && w.disk.record == old(w.disk.record) && w.engines == old(w.engines)
    ensures w.sys.app == old(w.sys.app)
    ensures KeepSet(old(w.sys), seen).None? ==> !ok && removed == 0 && w.disk == old(w.disk)
    ensures KeepSet(old(w.sys), seen).Some? ==>
              w.disk == Cleaned(old(w.disk), KeepSet(old(w.sys), seen).value, names, if ok then |names| else removed)
  {
    hide Inv, Run, Lower, BootStep, UpdateStep, Connect, Disconnect, BeginUpdate, Kept, BuildRuntimeKeepSet;
    hide Cleaned, CleaningGoesOn;
    var connected;
    connected, seen := w.IsConnectedNow();
    var running := if connected then w.engines.live[|w.engines.live| - 1] else "";
    var built := BuildRuntimeKeepSet(w.disk.record, selected, w.embedded, running);
    if built.None? { return false, 0, seen; }
    var keep := built.value;
    ghost var d0 := w.disk;
    CleaningBegins(d0, keep, names);
    removed := 0;
    var i := 0;
    while i < |names|
      invariant 0 <= i <= |names| && removed <= i
      invariant CleaningGoesOn(d0, keep, names, w.disk, i, removed)
      invariant w.sys == old(w.sys) && w.events == old(w.events) && w.engines == old(w.engines) && w.Tracked()
    {
      CleaningStep(d0, keep, names, w.disk, i, removed);
      if !Kept(keep, names[i]) {
        var success: bool := *;
        if !success {
          w.disk := Spoiled(w.disk, names[i]);
          CleanedKeepsRecord(d0, keep, names, removed);
          w.Did(CleanupEvent(names, removed, seen));
          return false, removed, seen;
        }
        w.disk := Without(w.disk, names[i]);
        removed := removed + 1;
      }
      i := i + 1;
    }
    CleaningDone(d0, keep, names, w.disk, removed);
    CleanedKeepsRecord(d0, keep, names, |names|);
    w.Did(CleanupEvent(names, |names|, seen));
    return true, removed, seen;
  }
}
