/** When an update gets each of its answers, in terms of what happened since it began. */
module RuntimeAnswers {
  import opened Texts
  import opened UpdateManifest
  import opened RuntimeModel
  import opened RuntimeInvariant
  import RuntimeSafety

  // ---- what happened in the present update ----------------------------------------------------

  /** The package could not be unpacked; the candidate was found unfit; the previous version was found
      to verify; the commit was saved; the stop of the old engine was refused; the candidate failed;
      after that the old version was started again; after that it was found alive and healthy; and
      the restored record was saved. */
  datatype Marks = Marks(unpackable: bool, unfit: bool, restorable: bool, committed: bool, refused: bool, failed: bool,
                         back: bool, alive: bool, saved: bool)

  const NOTHING: Marks := Marks(false, false, false, false, false, false, false, false, false)

  /** The old directory could not be removed, or the package not be extracted. */
  predicate UnpackFailed(s: Sys, o: Outcome)
    requires s.app.Updating?
  {
    || (s.app.at.RemoveOld? && Lower(s.app.update.candidate) in s.disk.present && !o.ok)
    || (s.app.at.Extract? && !o.ok)
  }

  /** The candidate does not verify, the pending record could not be saved, or it was saved again
      without its mark because the previous version does not verify. */
  predicate FoundUnfit(s: Sys, o: Outcome)
    requires s.app.Updating?
  {
    || (s.app.at.Verify? && !(o.ok && s.app.update.candidate in s.disk.good))
    || (s.app.at.SavePending? && o.save != Saved)
    || (s.app.at.AbandonPending? && o.save == Saved)
  }

  /** The version that runs was checked, and can be started again. */
  predicate FoundRestorable(s: Sys, o: Outcome)
    requires s.app.Updating?
  {
    s.app.at.VerifyPrevious? && o.ok && s.app.update.stored.current in s.disk.good
  }

  predicate CommitSaved(s: Sys, o: Outcome)
    requires s.app.Updating?
  {
    s.app.at.Commit? && o.save == Saved
  }

  predicate StopRefused(s: Sys, o: Outcome)
    requires s.app.Updating?
  {
    s.app.at.StopCurrent? && s.app.update.wasRunning && (o.stop == FailedAlive || o.stop == FailedGone)
  }

  /** The candidate could not be started, was not found alive and healthy, or was not committed. */
  predicate CandidateFailed(s: Sys, o: Outcome)
    requires s.app.Updating?
  {
    || (s.app.at.StartCandidate? && s.app.update.wasRunning && !o.ok)
    || (s.app.at.CandidateHealth? && s.app.update.wasRunning && !(o.ok && Running(s)))
    || (s.app.at.Commit? && o.save != Saved)
  }

  /** An engine of the version that the update began with has been started and recorded. */
  predicate EngineBack(s: Sys, t: Sys)
    requires s.app.Updating?
  {
    t.engines == Engines(s.engines.live + [s.app.update.stored.current], true)
  }

  /** The last health check finds the recorded engine alive, and it is of that version. */
  predicate FoundAlive(s: Sys, o: Outcome)
    requires s.app.Updating?
  {
    s.app.at.PreviousHealth? && o.ok && Running(s) && Live(s) == s.app.update.stored.current
  }

  /** The record with nothing pending and the version that the update began with is saved. */
  predicate RestoreSaved(s: Sys, o: Outcome, t: Sys)
    requires s.app.Updating?
  {
    && s.app.at.SaveRolledBack? && o.save == Saved && t.disk.record.Record? && t.disk.record.state.pending == ""
    && t.disk.record.state.current == s.app.update.stored.current
  }

  /** What one more event adds. */
  function Marked(m: Marks, s: Sys, e: Event, t: Sys): Marks {
    if !s.app.Updating? || !t.app.Updating? then NOTHING
    else if !e.UpdateEvent? then m
    else Marks(m.unpackable || UnpackFailed(s, e.o),
               m.unfit || FoundUnfit(s, e.o),
               m.restorable || FoundRestorable(s, e.o),
               m.committed || CommitSaved(s, e.o),
               m.refused || StopRefused(s, e.o),
               m.failed || CandidateFailed(s, e.o),
               m.back || (m.failed && EngineBack(s, t)),
               m.alive || (m.back && FoundAlive(s, e.o)),
               m.saved || RestoreSaved(s, e.o, t))
  }

  /** What has happened in the update that is under way at the end of a run. */
  function Happened(s0: Sys, events: seq<Event>): Marks
    decreases |events|
  {
    if events == [] then NOTHING else
    var front, e := events[..|events| - 1], events[|events| - 1];
    Marked(Happened(s0, front), Run(s0, front), e, Run(s0, events))
  }

  // ---- where the update stands, and what has happened -------------------------------------------

  predicate Restored(m: Marks, u: Update) { u.wasRunning ==> m.alive }

  /** Each answer says what happened. */
  predicate Deserved(status: Status, m: Marks, wasRunning: bool) {
    && (status == PackageRejected <==> m.unpackable)
    && (status == PreflightRejected <==> m.unfit)
    && (status == Applied <==> m.committed)
    && (status == StopRejected <==> m.refused && m.saved)
    && (status == RolledBack <==> m.failed && m.saved && (wasRunning ==> m.alive))
  }

  /** Nothing but the check of the previous version has happened. */
  predicate Fresh(m: Marks) { m == NOTHING.(restorable := m.restorable) }

  /** An engine that is to be stopped could be started again. */
  predicate Safe(s: Sys, m: Marks, u: Update) {
    u.wasRunning && u.stored.current != s.embedded ==> m.restorable
  }

  predicate Told(s: Sys, m: Marks) {
    if !s.app.Updating? then m == NOTHING else
    var u := s.app.update;
    match s.app.at
    case StopCurrent => Fresh(m) && Safe(s, m, u)
    case StartCandidate => Fresh(m)
    case CandidateHealth => Fresh(m)
    case Commit => Fresh(m)
    case StopCandidate => m == NOTHING.(restorable := m.restorable, failed := true)
    case StartPrevious => m == NOTHING.(restorable := m.restorable, failed := true) && u.wasRunning
    case PreviousHealth =>
      && m == NOTHING.(restorable := m.restorable, failed := true, back := true) && u.wasRunning
      && (Running(s) ==> Live(s) == u.stored.current)
    case StopLeftover(restored) =>
      m.failed && !m.unpackable && !m.unfit && !m.committed && !m.refused && !m.saved && (restored <==> Restored(m, u))
    case SaveRolledBack(result) =>
      && !m.unpackable && !m.unfit && !m.committed && !m.saved
      && (if result == StopRejected then m == NOTHING.(restorable := m.restorable, refused := true)
          else m.failed && !m.refused && (result == RolledBack <==> Restored(m, u)))
    case Done(status) => Deserved(status, m, u.wasRunning)
    case _ => m == NOTHING
  }

  lemma ToldPrepare(s: Sys, o: Outcome, m: Marks)
    requires Inv(s) && s.app.Updating? && Told(s, m)
    requires s.app.at.RemoveOld? || s.app.at.Extract? || s.app.at.Verify? || s.app.at.SavePending?
    ensures Told(UpdateStep(s, o), Marked(m, s, UpdateEvent(o), UpdateStep(s, o)))
  {
    hide Newer, Lower, Elsewhere, Extracted, RecordAt, MilestonesAt, PendingState;
  }

  lemma ToldSwitch(s: Sys, o: Outcome, m: Marks)
    requires Inv(s) && s.app.Updating? && Told(s, m)
    requires s.app.at.VerifyPrevious? || s.app.at.AbandonPending? || s.app.at.StopCurrent? || s.app.at.StartCandidate?
    ensures Told(UpdateStep(s, o), Marked(m, s, UpdateEvent(o), UpdateStep(s, o)))
  {
    hide Newer, Lower, Elsewhere, Extracted, RecordAt, MilestonesAt, PendingState, AbandonedState;
  }

  lemma ToldCommit(s: Sys, o: Outcome, m: Marks)
    requires Inv(s) && s.app.Updating? && Told(s, m) && (s.app.at.CandidateHealth? || s.app.at.Commit?)
    ensures Told(UpdateStep(s, o), Marked(m, s, UpdateEvent(o), UpdateStep(s, o)))
  {
    hide Newer, Lower, Elsewhere, Extracted, RecordAt, MilestonesAt, CommittedState;
  }

  lemma ToldStopped(s: Sys, o: Outcome, m: Marks)
    requires Inv(s) && s.app.Updating? && Told(s, m) && s.app.at.StopCandidate?
    ensures Told(UpdateStep(s, o), Marked(m, s, UpdateEvent(o), UpdateStep(s, o)))
  {
    hide Newer, Lower, Elsewhere, Extracted, RecordAt, MilestonesAt, CommittedState, StopLast, EngineBack;
    StopIsNoStart(s, UpdateStep(s, o), o.stop);
  }

  lemma StopIsNoStart(s: Sys, t: Sys, o: StopOutcome)
    requires s.app.Updating?
    ensures t.engines == s.engines || t.engines == StopLast(s.engines, o) ==> !EngineBack(s, t)
  {
    assert |StopLast(s.engines, o).live| <= |s.engines.live|;
  }

  lemma ToldRestart(s: Sys, o: Outcome, m: Marks)
    requires Inv(s) && s.app.Updating? && Told(s, m) && s.app.at.StartPrevious?
    ensures Told(UpdateStep(s, o), Marked(m, s, UpdateEvent(o), UpdateStep(s, o)))
  {
    hide Newer, Lower, Elsewhere, Extracted, RecordAt, MilestonesAt;
    var current := s.app.update.stored.current;
    assert Joined(s.engines, current) == Engines(s.engines.live + [current], true);
  }

  lemma ToldHealth(s: Sys, o: Outcome, m: Marks)
    requires Inv(s) && s.app.Updating? && Told(s, m) && (s.app.at.PreviousHealth? || s.app.at.StopLeftover?)
    ensures Told(UpdateStep(s, o), Marked(m, s, UpdateEvent(o), UpdateStep(s, o)))
  {
    hide Newer, Lower, Elsewhere, Extracted, RecordAt, MilestonesAt, StopLast, EngineBack;
    StopIsNoStart(s, UpdateStep(s, o), o.stop);
  }

  lemma ToldFinish(s: Sys, o: Outcome, m: Marks)
    requires Inv(s) && s.app.Updating? && Told(s, m) && (s.app.at.SaveRolledBack? || s.app.at.Done?)
    ensures Told(UpdateStep(s, o), Marked(m, s, UpdateEvent(o), UpdateStep(s, o)))
  {
    hide Newer, Lower, Elsewhere, Extracted, MilestonesAt;
  }

  lemma ToldUpdate(s: Sys, o: Outcome, m: Marks)
    requires Inv(s) && s.app.Updating? && Told(s, m)
    ensures Told(UpdateStep(s, o), Marked(m, s, UpdateEvent(o), UpdateStep(s, o)))
  {
    hide Inv, Told, UpdateStep, Marked;
    match s.app.at
    case RemoveOld => ToldPrepare(s, o, m);
    case Extract => ToldPrepare(s, o, m);
    case Verify => ToldPrepare(s, o, m);
    case SavePending => ToldPrepare(s, o, m);
    case VerifyPrevious => ToldSwitch(s, o, m);
    case AbandonPending => ToldSwitch(s, o, m);
    case StopCurrent => ToldSwitch(s, o, m);
    case StartCandidate => ToldSwitch(s, o, m);
    case CandidateHealth => ToldCommit(s, o, m);
    case Commit => ToldCommit(s, o, m);
    case StopCandidate => ToldStopped(s, o, m);
    case StartPrevious => ToldRestart(s, o, m);
    case PreviousHealth => ToldHealth(s, o, m);
    case StopLeftover(_) => ToldHealth(s, o, m);
    case SaveRolledBack(_) => ToldFinish(s, o, m);
    case Done(_) => ToldFinish(s, o, m);
  }

  lemma ToldOther(s: Sys, e: Event, m: Marks)
    requires Inv(s) && Told(s, m) && !e.UpdateEvent?
    ensures Told(Apply(s, e), Marked(m, s, e, Apply(s, e)))
  {
    hide Newer, Lower, Inv, BootStep, Cleaned;
    if e.BootEvent? && s.app.Boot? { RuntimeSafety.BootNeverUpdates(s, e.o); }
  }

  lemma {:induction false} ToldRun(s0: Sys, events: seq<Event>)
    requires Start(s0)
    ensures Told(Run(s0, events), Happened(s0, events))
    decreases |events|
  {
    hide Inv, Told, Apply, Marked, UpdateStep;
    if events == [] {
      ToldStart(s0);
    } else {
      var front, e := events[..|events| - 1], events[|events| - 1];
      var s, m := Run(s0, front), Happened(s0, front);
      ToldRun(s0, front);
      RunKeeps(s0, front);
      if e.UpdateEvent? && s.app.Updating? {
        ToldUpdate(s, e.o, m);
        AppliedUpdate(s, e);
      } else if e.UpdateEvent? {
        ToldIdle(s, e, m);
      } else {
        ToldOther(s, e, m);
      }
    }
  }

  lemma ToldStart(s0: Sys)
    requires Start(s0)
    ensures Told(Run(s0, []), NOTHING)
  {}

  lemma ToldIdle(s: Sys, e: Event, m: Marks)
    requires !s.app.Updating? && e.UpdateEvent?
    ensures Told(Apply(s, e), Marked(m, s, e, Apply(s, e)))
  {
    hide UpdateStep;
  }

  /** Over all runs, an update is answered PackageRejected exactly when its package could not be
      unpacked, PreflightRejected exactly when its candidate was unfit, Applied exactly when its commit
      was saved, StopRejected exactly when the stop of the old engine was refused and the restored
      record saved, and RolledBack exactly when the candidate failed, the restored record was saved
      and, if an engine had been running, the old version was started again after the failure and
      then found alive.  In all other cases it is answered RollbackFailed. */
  lemma AnswerExactly(s0: Sys, events: seq<Event>)
    requires Start(s0) && Run(s0, events).app.Updating? && Run(s0, events).app.at.Done?
    ensures var app := Run(s0, events).app;
            Deserved(app.at.status, Happened(s0, events), app.update.wasRunning)
  {
    hide Run, Happened;
    ToldRun(s0, events);
  }

  /** Over all runs, when an update is about to stop the engine, its candidate has been verified and is
      recorded as pending, and the version that runs is embedded or was found to verify after that. */
  lemma StopIsSafe(s0: Sys, events: seq<Event>)
    requires Start(s0) && Run(s0, events).app.Updating? && Run(s0, events).app.at.StopCurrent?
    ensures var s := Run(s0, events);
            var u := s.app.update;
            && u.verified
            && s.disk.record == Record(Stored(u.stored.current, u.stored.previousKnownGood, u.candidate, u.sha256, u.keyId,
                                              "candidate-preflight-ok"))
            && (u.wasRunning && u.stored.current != s.embedded ==> Happened(s0, events).restorable)
  {
    hide Run, Happened;
    ToldRun(s0, events);
    RunKeeps(s0, events);
  }

  /** What is on record after an answer that says that the old version is back, or that the commit is
      done. */
  lemma AnswerRecord(s0: Sys, events: seq<Event>)
    requires Start(s0) && Run(s0, events).app.Updating? && Run(s0, events).app.at.Done?
    ensures var s := Run(s0, events);
            var u := s.app.update;
            match s.app.at.status
            case Applied =>
              s.disk.record == Record(Stored(u.candidate, u.stored.current, "", u.sha256, u.keyId, "payload-update-committed"))
            case RolledBack =>
              s.disk.record == Record(Stored(u.stored.current, u.stored.previousKnownGood, "", u.sha256,
                                             u.stored.manifestKeyId, "payload-update-rolled-back"))
            case StopRejected =>
              s.disk.record == Record(Stored(u.stored.current, u.stored.previousKnownGood, "", u.sha256,
                                             u.stored.manifestKeyId, "payload-update-rolled-back"))
            case PackageRejected => s.disk.record == Record(u.stored) || s.disk.record.Missing?
            case PreflightRejected =>
              || s.disk.record == Record(u.stored) || s.disk.record.Missing?
              || s.disk.record == Record(Stored(u.stored.current, u.stored.previousKnownGood, u.candidate, u.sha256, u.keyId,
                                                "candidate-preflight-ok"))
              || s.disk.record == Record(Stored(u.stored.current, u.stored.previousKnownGood, "", u.sha256, u.keyId,
                                                "previous-runtime-preflight-failed"))
            case RollbackFailed => true
  {
    hide Run, Newer;
    RunKeeps(s0, events);
  }

  // ---- the candidate that is left over -----------------------------------------------------------

  /** The engine that the candidate's manager holds is the candidate's. */
  predicate OwnsCandidate(s: Sys) {
    s.app.Updating? && s.app.update.owned && Running(s) ==> Live(s) == s.app.update.candidate
  }

  predicate MovesEngines(at: UpdateAt) {
    at.StopCurrent? || at.StartCandidate? || at.StopCandidate? || at.StartPrevious? || at.StopLeftover?
  }

  lemma SwitchOwns(s: Sys, o: Outcome)
    requires Inv(s) && s.app.Updating? && OwnsCandidate(s) && MovesEngines(s.app.at)
    ensures OwnsCandidate(UpdateStep(s, o))
  {
    hide Newer, Lower, Elsewhere, Extracted, Save, RecordAt, MilestonesAt, Verifies;
  }

  lemma OtherOwns(s: Sys, o: Outcome)
    requires s.app.Updating? && OwnsCandidate(s) && !MovesEngines(s.app.at)
    ensures OwnsCandidate(UpdateStep(s, o))
  {
    hide Newer, Lower, Elsewhere, Extracted, Save, StopLast, Verifies;
  }

  lemma UpdateOwns(s: Sys, o: Outcome)
    requires Inv(s) && s.app.Updating? && OwnsCandidate(s)
    ensures OwnsCandidate(UpdateStep(s, o))
  {
    hide *;
    if MovesEngines(s.app.at) { SwitchOwns(s, o); } else { OtherOwns(s, o); }
  }

  lemma {:induction false} RunOwns(s0: Sys, events: seq<Event>)
    requires Start(s0)
    ensures OwnsCandidate(Run(s0, events))
    decreases |events|
  {
    hide Inv, UpdateStep, Newer, BootStep, Cleaned;
    if events != [] {
      var front, e := events[..|events| - 1], events[|events| - 1];
      RunOwns(s0, front);
      RunKeeps(s0, front);
      if e.UpdateEvent? && Run(s0, front).app.Updating? { UpdateOwns(Run(s0, front), e.o); }
      if e.BootEvent? && Run(s0, front).app.Boot? { RuntimeSafety.BootNeverUpdates(Run(s0, front), e.o); }
    }
  }

  /** Over all runs, before the old record is restored, a candidate that still runs is stopped if it is
      seen and its stop works. */
  lemma LeftoverIsStopped(s0: Sys, events: seq<Event>, o: Outcome)
    requires Start(s0) && Run(s0, events).app.Updating? && Run(s0, events).app.at.StopLeftover?
    requires Run(s0, events).app.update.owned && Running(Run(s0, events)) && o.again && o.stop == Stopped
    ensures var s := Run(s0, events);
            var t := Apply(s, UpdateEvent(o));
            && s.engines.live == t.engines.live + [s.app.update.candidate] && !Running(t)
            && t.app.Updating? && t.app.at.SaveRolledBack?
  {
    hide Run, Inv;
    RunOwns(s0, events);
    var es := Run(s0, events).engines;
    assert es.live == es.live[..|es.live| - 1] + [es.live[|es.live| - 1]];
  }

  // ---- an update whose calls all work --------------------------------------------------------------

  /** The calls of an update to `candidate` from `current` work.  Files of other versions may be
      damaged. */
  predicate Fine(candidate: string, current: string, e: Event) {
    match e
    case UpdateEvent(o) => o.ok && o.second && o.save == Saved && o.stop == Stopped && o.see == Seen && o.again
    case FilesDamaged(versions) => candidate !in versions && current !in versions
    case _ => false
  }

  predicate AllFine(s: Sys, steps: seq<Event>)
    requires s.app.Updating?
  {
    forall i | 0 <= i < |steps| :: Fine(s.app.update.candidate, s.app.update.stored.current, steps[i])
  }

  /** The steps that the update itself has taken. */
  function Taken(steps: seq<Event>): nat {
    if steps == [] then 0 else Taken(steps[..|steps| - 1]) + if steps[|steps| - 1].UpdateEvent? then 1 else 0
  }

  /** The update has just begun; if an engine runs, its version could be started again, which the
      update checks of an installed one. */
  predicate Begun(s: Sys) {
    && s.app.Updating? && s.app.at.RemoveOld? && !s.app.update.wasRunning && !s.app.update.owned
    && var u := s.app.update;
       Newer(u.candidate, u.stored.current)
       && (s.app.managed && Running(s) && u.stored.current != s.embedded ==>
             Verifies(s.disk, u.stored.current) && Lower(u.stored.current) != Lower(u.candidate))
  }

  /** The engines after the update: the candidate's in place of the managed one. */
  function Replaced(s: Sys): Engines
    requires s.app.Updating?
  {
    if s.app.managed && Running(s) then Engines(s.engines.live[..|s.engines.live| - 1] + [s.app.update.candidate], true)
    else s.engines
  }

  /** The update has been applied: the candidate is current and selected, and its engine runs if one
      was running. */
  predicate AppliedWell(s: Sys, t: Sys)
    requires s.app.Updating?
  {
    var u := s.app.update;
    && t.app == Ready(u.candidate, Running(t)) && t.engines == Replaced(s)
    && t.disk.record == Record(Stored(u.candidate, u.stored.current, "", u.sha256, u.keyId, "payload-update-committed"))
  }

  /** How far an update whose calls work has come after `n` steps. */
  predicate Advanced(s: Sys, t: Sys, n: nat)
    requires s.app.Updating?
  {
    t.embedded == s.embedded &&
    var c := s.app.update.candidate;
    if !t.app.Updating? then n >= 9 && AppliedWell(s, t) else
    var u, v := s.app.update, t.app.update;
    var running := s.app.managed && Running(s);
    && v.stored == u.stored && v.candidate == c && v.sha256 == u.sha256 && v.keyId == u.keyId
    && (v.wasRunning == (running && n >= 3))
    && match t.app.at
       case RemoveOld => n == 0 && !v.owned && Untouched(s, t) && t.app.managed == s.app.managed
       case Extract => n == 1 && !v.owned && Untouched(s, t) && t.app.managed == s.app.managed
       case Verify => n == 2 && !v.owned && Untouched(s, t) && t.app.managed == s.app.managed && c in t.disk.good
       case SavePending => n == 3 && !v.owned && Untouched(s, t)
       case VerifyPrevious => n == 4 && !v.owned && Untouched(s, t) && running && u.stored.current != s.embedded
       case StopCurrent => n in {4, 5} && !v.owned && t.engines == s.engines
       case StartCandidate =>
         n in {5, 6} && !v.owned && t.engines == (if running then StopLast(s.engines, Stopped) else s.engines)
       case CandidateHealth => n in {6, 7} && v.owned == running && t.engines == Replaced(s)
       case Commit => n in {7, 8} && v.owned == running && t.engines == Replaced(s)
       case Done(status) =>
         n in {8, 9} && status == Applied && t.engines == Replaced(s) && t.disk.record == Record(CommittedState(v))
       case _ => false
  }

  /** The engines and the verified previous version are untouched. */
  predicate Untouched(s: Sys, t: Sys)
    requires s.app.Updating?
  {
    && t.engines == s.engines
    && (Verifies(s.disk, s.app.update.stored.current) && Lower(s.app.update.stored.current) != Lower(s.app.update.candidate)
        ==> Verifies(t.disk, s.app.update.stored.current))
  }

  lemma AdvancedPrepare(s: Sys, t: Sys, o: Outcome, n: nat)
    requires Begun(s) && Advanced(s, t, n) && Fine(s.app.update.candidate, s.app.update.stored.current, UpdateEvent(o))
    requires t.app.Updating? && (t.app.at.RemoveOld? || t.app.at.Extract? || t.app.at.Verify?)
    ensures Advanced(s, UpdateStep(t, o), n + 1)
  {
    hide Newer, Lower, PendingState, CommittedState;
  }

  lemma AdvancedPending(s: Sys, t: Sys, o: Outcome, n: nat)
    requires Begun(s) && Advanced(s, t, n) && Fine(s.app.update.candidate, s.app.update.stored.current, UpdateEvent(o))
    requires t.app.Updating? && (t.app.at.SavePending? || t.app.at.VerifyPrevious?)
    ensures Advanced(s, UpdateStep(t, o), n + 1)
  {
    hide Newer, Lower, PendingState, CommittedState;
  }

  lemma AdvancedSwitch(s: Sys, t: Sys, o: Outcome, n: nat)
    requires Begun(s) && Advanced(s, t, n) && Fine(s.app.update.candidate, s.app.update.stored.current, UpdateEvent(o))
    requires t.app.Updating? && (t.app.at.StopCurrent? || t.app.at.StartCandidate?)
    ensures Advanced(s, UpdateStep(t, o), n + 1)
  {
    hide Newer, Lower, PendingState, CommittedState;
  }

  lemma AdvancedCommit(s: Sys, t: Sys, o: Outcome, n: nat)
    requires Begun(s) && Advanced(s, t, n) && Fine(s.app.update.candidate, s.app.update.stored.current, UpdateEvent(o))
    requires t.app.Updating? && (t.app.at.CandidateHealth? || t.app.at.Commit? || t.app.at.Done?)
    ensures Advanced(s, UpdateStep(t, o), n + 1)
  {
    hide Newer, Lower, PendingState;
  }

  lemma AdvancedStep(s: Sys, t: Sys, e: Event, n: nat)
    requires Begun(s) && Advanced(s, t, n) && Fine(s.app.update.candidate, s.app.update.stored.current, e)
    ensures Advanced(s, Apply(t, e), if e.UpdateEvent? then n + 1 else n)
  {
    hide Newer, Lower, UpdateStep, PendingState, CommittedState, Replaced;
    if e.UpdateEvent? && t.app.Updating? {
      match t.app.at
      case RemoveOld => AdvancedPrepare(s, t, e.o, n);
      case Extract => AdvancedPrepare(s, t, e.o, n);
      case Verify => AdvancedPrepare(s, t, e.o, n);
      case SavePending => AdvancedPending(s, t, e.o, n);
      case VerifyPrevious => AdvancedPending(s, t, e.o, n);
      case StopCurrent => AdvancedSwitch(s, t, e.o, n);
      case StartCandidate => AdvancedSwitch(s, t, e.o, n);
      case CandidateHealth => AdvancedCommit(s, t, e.o, n);
      case Commit => AdvancedCommit(s, t, e.o, n);
      case Done(_) => AdvancedCommit(s, t, e.o, n);
    }
  }

  lemma {:induction false} AdvancedRun(s: Sys, steps: seq<Event>)
    requires Begun(s) && AllFine(s, steps)
    ensures Advanced(s, Run(s, steps), Taken(steps))
    decreases |steps|
  {
    hide Begun, Advanced, Fine, Apply;
    BegunMeans(s);
    if steps != [] {
      var n := |steps| - 1;
      assert AllFine(s, steps[..n]) by {
        forall i | 0 <= i < n ensures Fine(s.app.update.candidate, s.app.update.stored.current, steps[..n][i]) {
          assert steps[..n][i] == steps[i];
        }
      }
      AdvancedRun(s, steps[..n]);
      AdvancedStep(s, Run(s, steps[..n]), steps[n], Taken(steps[..n]));
    }
  }

  lemma BegunMeans(s: Sys)
    requires Begun(s)
    ensures s.app.Updating? && Advanced(s, s, 0)
  {}

  /** An update whose calls all work is applied after ten steps at most, whatever was on disk: the
      candidate is committed and selected, and its engine has taken the place of the managed one. */
  lemma UpdateSucceeds(s: Sys, steps: seq<Event>)
    requires Begun(s) && AllFine(s, steps) && Taken(steps) >= 10
    ensures AppliedWell(s, Run(s, steps))
  {
    hide Run, AllFine, Begun, Replaced, Taken;
    BegunMeans(s);
    AdvancedRun(s, steps);
  }
}
