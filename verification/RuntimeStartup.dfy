/** What a startup does to a live engine, and what a startup whose calls all work ends in. */
module RuntimeStartup {
  import opened Texts
  import opened UpdateManifest
  import opened RuntimeModel
  import opened RuntimeInvariant
  import opened RuntimeFaults
  import RuntimeSafety

  // ---- which engines a startup ends -----------------------------------------------------------

  /** In the present startup the files of the selected version have been found not to verify. */
  predicate DamageFound(s0: Sys, events: seq<Event>)
    decreases |events|
  {
    events != [] &&
    var front, e := events[..|events| - 1], events[|events| - 1];
    var s := Run(s0, front);
    s.app.Boot? && (DamageFound(s0, front)
                    || (s.app.boot.CheckCurrent? && e.BootEvent? && !(e.o.ok && Verifies(s.disk, s.app.choice))))
  }

  /** The recorded engine is one of the pending version. */
  predicate RunsPending(s: Sys) {
    HasPending(s.disk.record) && Running(s) && SameImage(Live(s), s.disk.record.state.pending)
  }

  /** The recorded engine is one of the current version, which the fallback is about to replace. */
  predicate RunsReplaced(s: Sys) {
    && s.disk.record.Record? && Running(s)
    && var state := s.disk.record.state;
       SameImage(Live(s), state.current) && state.current != s.embedded
       && state.previousKnownGood != "" && !SameImage(Live(s), state.previousKnownGood)
  }

  /** What is known at the two steps that may stop an engine. */
  predicate Aimed(s: Sys, found: bool) {
    s.app.Boot? ==>
      && (s.app.boot.StopPending? && Running(s) ==> RunsPending(s))
      && (s.app.boot.CheckFallback? || s.app.boot.Reconcile? ==> found)
  }

  lemma BootAims(s: Sys, o: Outcome, found: bool)
    requires Inv(s) && s.app.Boot? && Aimed(s, found)
    ensures Aimed(BootStep(s, s.app.boot, s.app.loaded, s.app.choice, o),
                  found || (s.app.boot.CheckCurrent? && !(o.ok && Verifies(s.disk, s.app.choice))))
  {
    hide Newer, Lower, Elsewhere, Extracted, StopLast;
  }

  lemma OtherAims(s: Sys, e: Event, found: bool)
    requires Inv(s) && Aimed(s, found) && !e.BootEvent?
    ensures Aimed(Apply(s, e), s.app.Boot? && found)
  {
    hide Newer, Lower, Inv, UpdateStep, Cleaned;
    if e.UpdateEvent? && s.app.Updating? { RuntimeSafety.UpdateNeverBoots(s, e.o); }
  }

  lemma {:induction false} RunAims(s0: Sys, events: seq<Event>)
    requires Start(s0)
    ensures Aimed(Run(s0, events), DamageFound(s0, events))
    decreases |events|
  {
    hide Inv, Aimed, Apply, BootStep;
    if events == [] {
      NotAimed(s0);
    } else {
      var front, e := events[..|events| - 1], events[|events| - 1];
      var s := Run(s0, front);
      RunAims(s0, front);
      RunKeeps(s0, front);
      if e.BootEvent? && s.app.Boot? {
        BootAims(s, e.o, DamageFound(s0, front));
        AppliedBoot(s, e);
      } else if e.BootEvent? {
        IdleBoot(s, e);
        NotAimed(s);
      } else {
        OtherAims(s, e, DamageFound(s0, front));
      }
    }
  }

  lemma NotAimed(s: Sys)
    requires !s.app.Boot?
    ensures Aimed(s, false) && Aimed(s, true)
  {}

  lemma IdleBoot(s: Sys, e: Event)
    requires !s.app.Boot? && e.BootEvent?
    ensures Apply(s, e) == s
  {
    hide BootStep;
  }

  lemma BootStops(s: Sys, o: Outcome, found: bool)
    requires Inv(s) && s.app.Boot? && Aimed(s, found)
    ensures var t := BootStep(s, s.app.boot, s.app.loaded, s.app.choice, o);
            || t.engines.live == s.engines.live
            || (RunsPending(s) && t.engines.live == s.engines.live[..|s.engines.live| - 1])
            || (found && RunsReplaced(s) && t.engines.live == s.engines.live[..|s.engines.live| - 1])
  {
    hide Newer, Lower, Elsewhere, Extracted;
  }

  /** Over all runs: while a startup is under way, the engines that live stay the same, or one has
      exited by itself, or the recorded one was stopped, which was of the pending version, or of the
      current one whose files were found damaged and which the fallback is about to replace. */
  lemma StartupSpares(s0: Sys, events: seq<Event>, e: Event)
    requires Start(s0) && Run(s0, events).app.Boot?
    ensures var s := Run(s0, events);
            var t := Apply(s, e);
            || t.engines.live == s.engines.live
            || e.EngineExits?
            || (e.BootEvent? && t.engines.live == s.engines.live[..|s.engines.live| - 1]
                && (RunsPending(s) || (RunsReplaced(s) && DamageFound(s0, events))))
  {
    hide Run, Inv, Aimed, BootStep, RunsPending, RunsReplaced, DamageFound;
    RunKeeps(s0, events);
    RunAims(s0, events);
    var s := Run(s0, events);
    if e.BootEvent? { BootStops(s, e.o, DamageFound(s0, events)); }
  }

  // ---- a startup whose calls all work -------------------------------------------------------------

  function FallbackOf(s: Sys): string { if s.disk.record.Record? then s.disk.record.state.previousKnownGood else "" }

  /** A version that can be run: the embedded one, or one whose files verify. */
  predicate Usable(s: Sys, version: string) { version == s.embedded || Verifies(s.disk, version) }

  /** The recorded engine is one of the current or of the pending version. */
  predicate Explained(s: Sys) {
    Running(s) ==> SameImage(Live(s), CurrentVersion(s)) || RunsPending(s)
  }

  /** The calls of a startup work.  Engines may exit, and files of versions other than the current one
      and the fallback may be damaged. */
  predicate Works(s: Sys, e: Event) {
    match e
    case BootEvent(o) => o.ok && o.save == Saved && o.stop == Stopped && o.see == Seen && o.again
    case EngineExits(_) => true
    case FilesDamaged(versions) => CurrentVersion(s) !in versions && FallbackOf(s) !in versions
    case _ => false
  }

  predicate AllWork(s: Sys, steps: seq<Event>) { forall i | 0 <= i < |steps| :: Works(s, steps[i]) }

  /** The steps that the startup itself has taken. */
  function Steps(steps: seq<Event>): nat {
    if steps == [] then 0 else Steps(steps[..|steps| - 1]) + if steps[|steps| - 1].BootEvent? then 1 else 0
  }

  /** What the startup selects. */
  function Selectable(s: Sys): Option<string> {
    if Usable(s, CurrentVersion(s)) then Some(CurrentVersion(s))
    else if FallbackOf(s) != "" && Usable(s, FallbackOf(s)) then Some(FallbackOf(s))
    else None
  }

  /** Ready with the current version, or else with the fallback, which is then on record as current and
      verifies, and any recorded engine managed; refused only when neither can be run. */
  predicate StartedWell(s: Sys, t: Sys) {
    if s.disk.record.Damaged? then t.app == Refused(StateUnreadable)
    else if Selectable(s).None? then t.app == Refused(if FallbackOf(s) == "" then NoFallback else FallbackDamaged)
    else
      && t.app == Ready(Selectable(s).value, Running(t))
      && (if Usable(s, CurrentVersion(s)) then SameState(s.disk.record, t.disk.record)
          else t.disk.record == Record(Stored(FallbackOf(s), "", "", s.disk.record.state.packageSha256,
                                              s.disk.record.state.manifestKeyId, "startup-integrity-rollback"))
               && Verifies(t.disk, FallbackOf(s)))
  }

  /** The record is as it was, except that an interrupted update has been noted and its mark cleared. */
  predicate SameState(before: StateFile, after: StateFile) {
    if HasPending(before)
    then after == Record(before.state.(pending := "", lastResult := "interrupted-pending-rolled-back"))
    else after == before
  }

  predicate Same(s: Sys, t: Sys) {
    && t.embedded == s.embedded
    && (Verifies(t.disk, CurrentVersion(s)) <==> Verifies(s.disk, CurrentVersion(s)))
    && (Verifies(t.disk, FallbackOf(s)) <==> Verifies(s.disk, FallbackOf(s)))
  }

  predicate RunsOnly(t: Sys, version: string) { Running(t) ==> SameImage(Live(t), version) }

  /** How far a startup whose calls work has come after `n` steps. */
  predicate Progress(s: Sys, t: Sys, n: nat) {
    t.embedded == s.embedded &&
    if !t.app.Boot? then StartedWell(s, t) else
    var current, loaded, choice := CurrentVersion(s), t.app.loaded, t.app.choice;
    loaded == s.disk.record &&
    match t.app.boot
    case Loaded => n == 0 && Same(s, t) && t.disk.record == loaded && choice == current && Explained(t)
    case StopPending =>
      && n <= 1 && Same(s, t) && HasPending(loaded) && t.disk.record == loaded && choice == current
      && RunsOnly(t, loaded.state.pending)
    case ClearPending =>
      && n <= 2 && Same(s, t) && HasPending(loaded) && t.disk.record == loaded && choice == current
      && RunsOnly(t, current)
    case CheckCurrent =>
      && n <= 3 && Same(s, t) && !loaded.Damaged? && SameState(loaded, t.disk.record) && choice == current
      && RunsOnly(t, current)
    case CheckFallback =>
      && n <= 4 && Same(s, t) && loaded.Record? && choice == current
      && RunsOnly(t, current) && !Usable(s, current) && FallbackOf(s) != ""
    case Reconcile =>
      && n <= 5 && loaded.Record? && choice == current && RunsOnly(t, current)
      && !Usable(s, current) && Selectable(s) == Some(FallbackOf(s)) && Verifies(t.disk, FallbackOf(s))
    case SaveFallback =>
      && n <= 6 && loaded.Record? && RunsOnly(t, FallbackOf(s))
      && !Usable(s, current) && Selectable(s) == Some(FallbackOf(s)) && Verifies(t.disk, FallbackOf(s))
    case FinalCheck =>
      && n <= 7 && !loaded.Damaged? && Selectable(s) == Some(choice) && RunsOnly(t, choice)
      && (if Usable(s, current) then SameState(loaded, t.disk.record)
          else loaded.Record? && t.disk.record == Record(FallbackState(loaded.state)) && Verifies(t.disk, FallbackOf(s)))
  }

  lemma ProgressPending(s: Sys, t: Sys, o: Outcome, n: nat)
    requires Progress(s, t, n) && Works(s, BootEvent(o)) && t.app.Boot?
    requires t.app.boot.Loaded? || t.app.boot.StopPending? || t.app.boot.ClearPending?
    ensures Progress(s, BootStep(t, t.app.boot, t.app.loaded, t.app.choice, o), n + 1)
  {
    hide Lower, Elsewhere, Extracted;
  }

  lemma ProgressIntegrity(s: Sys, t: Sys, o: Outcome, n: nat)
    requires Progress(s, t, n) && Works(s, BootEvent(o)) && t.app.Boot?
    requires t.app.boot.CheckCurrent? || t.app.boot.CheckFallback?
    ensures Progress(s, BootStep(t, t.app.boot, t.app.loaded, t.app.choice, o), n + 1)
  {
    hide Lower, Elsewhere, StopLast;
  }

  lemma ProgressFallback(s: Sys, t: Sys, o: Outcome, n: nat)
    requires Progress(s, t, n) && Works(s, BootEvent(o)) && t.app.Boot?
    requires t.app.boot.Reconcile? || t.app.boot.SaveFallback?
    ensures Progress(s, BootStep(t, t.app.boot, t.app.loaded, t.app.choice, o), n + 1)
  {
    hide Lower, Elsewhere, Extracted;
  }

  lemma ProgressEnds(s: Sys, t: Sys, o: Outcome, n: nat)
    requires Progress(s, t, n) && Works(s, BootEvent(o)) && t.app.Boot? && t.app.boot.FinalCheck?
    ensures Progress(s, BootStep(t, t.app.boot, t.app.loaded, t.app.choice, o), n + 1)
  {
    hide Lower, Elsewhere, Extracted;
  }

  lemma ProgressExit(s: Sys, t: Sys, i: nat, n: nat)
    requires Progress(s, t, n)
    ensures Progress(s, Apply(t, EngineExits(i)), n)
  {
    hide Lower;
    ExitKeepsLive(t, i);
  }

  lemma ExitKeepsLive(t: Sys, i: nat)
    ensures var u := Apply(t, EngineExits(i)); Running(u) ==> Running(t) && Live(u) == Live(t)
  {}

  lemma ProgressDamage(s: Sys, t: Sys, versions: set<string>, n: nat)
    requires Progress(s, t, n) && Works(s, FilesDamaged(versions))
    ensures Progress(s, Apply(t, FilesDamaged(versions)), n)
  {
    hide Lower;
  }

  lemma ProgressStep(s: Sys, t: Sys, e: Event, n: nat)
    requires Progress(s, t, n) && Works(s, e)
    ensures Progress(s, Apply(t, e), if e.BootEvent? then n + 1 else n)
  {
    hide Progress, BootStep, Works;
    if e.BootEvent? {
      if t.app.Boot? {
        match t.app.boot
        case Loaded => ProgressPending(s, t, e.o, n);
        case StopPending => ProgressPending(s, t, e.o, n);
        case ClearPending => ProgressPending(s, t, e.o, n);
        case CheckCurrent => ProgressIntegrity(s, t, e.o, n);
        case CheckFallback => ProgressIntegrity(s, t, e.o, n);
        case Reconcile => ProgressFallback(s, t, e.o, n);
        case SaveFallback => ProgressFallback(s, t, e.o, n);
        case FinalCheck => ProgressEnds(s, t, e.o, n);
      } else {
        ProgressOver(s, t, n);
      }
    } else if e.EngineExits? {
      ProgressExit(s, t, e.i, n);
    } else {
      WorksMeans(s, e);
      ProgressDamage(s, t, e.versions, n);
    }
  }

  lemma ProgressOver(s: Sys, t: Sys, n: nat)
    requires Progress(s, t, n) && !t.app.Boot?
    ensures Progress(s, t, n + 1)
  {}

  lemma WorksMeans(s: Sys, e: Event)
    requires Works(s, e)
    ensures e.BootEvent? || e.EngineExits? || e.FilesDamaged?
  {}

  lemma {:induction false} ProgressRun(s: Sys, steps: seq<Event>)
    requires (s.app.Down? || s.app.Refused?) && Explained(s) && AllWork(s, steps)
    ensures Progress(s, Run(Apply(s, Launch(true)), steps), Steps(steps))
    decreases |steps|
  {
    hide Progress, Works, Explained, Apply;
    if steps == [] {
      ProgressStart(s);
    } else {
      var n := |steps| - 1;
      assert forall i | 0 <= i < n :: Works(s, steps[..n][i]) by {
        forall i | 0 <= i < n ensures Works(s, steps[..n][i]) { assert steps[..n][i] == steps[i]; }
      }
      ProgressRun(s, steps[..n]);
      ProgressStep(s, Run(Apply(s, Launch(true)), steps[..n]), steps[n], Steps(steps[..n]));
    }
  }

  lemma ProgressStart(s: Sys)
    requires (s.app.Down? || s.app.Refused?) && Explained(s)
    ensures Progress(s, Run(Apply(s, Launch(true)), []), 0)
  {
    hide Lower;
  }

  /** A startup whose calls all work, over an engine of the current or of the pending version or none,
      ends after eight steps at most: ready with the current version if that can be run, else with
      the recorded fallback if that can be run; it is refused only if neither can, and with
      NoFallback only if none is recorded. */
  lemma StartupExactly(s: Sys, steps: seq<Event>)
    requires (s.app.Down? || s.app.Refused?) && Explained(s) && AllWork(s, steps)
    ensures var t := Run(s, [Launch(true)] + steps);
            if t.app.Boot? then Steps(steps) < 8 else StartedWell(s, t)
  {
    hide Run, Apply, Steps, AllWork, Explained, StartedWell;
    RunCons(s, Launch(true), steps);
    ProgressRun(s, steps);
    hide Progress;
    ProgressMeans(s, Run(Apply(s, Launch(true)), steps), Steps(steps));
  }

  lemma ProgressMeans(s: Sys, t: Sys, n: nat)
    requires Progress(s, t, n)
    ensures if t.app.Boot? then n < 8 else StartedWell(s, t)
  {
    hide StartedWell, RunsOnly, Same;
  }
}
