/** When two engines can live at once, and when a startup can succeed beside an engine of another
    version. */
module RuntimeEngines {
  import opened Texts
  import opened UpdateManifest
  import opened RuntimeModel
  import opened RuntimeInvariant
  import opened RuntimeFaults

  // ---- without the faults that let an engine be forgotten ------------------------------------

  /** Managers see the engines whose record they hold, and the list of processes is complete. */
  predicate Sighted(f: Faults) {
    !f.unseenQueries && !f.unseenStops && !f.keptStops && !f.missedProcesses
  }

  predicate Clear(o: Outcome) {
    o.stop != Unseen && o.stop != UnseenKept && o.again && o.trusts && o.listed
  }

  /** The record names the engine if there is one. */
  predicate Held(es: Engines) { es.live == [] || es.named }

  predicate AloneAt(es: Engines, at: UpdateAt, u: Update, managed: bool) {
    && (at.RemoveOld? || at.Extract? || at.Verify? ==> managed ==> Held(es))
    && (at.SavePending? || at.VerifyPrevious? || at.AbandonPending? || at.StopCurrent? ==> u.wasRunning ==> Held(es))
    && (u.owned ==> Held(es))
    && (at.StartCandidate? || (at.StopCandidate? && !u.owned) ==> u.wasRunning ==> es.live == [])
    && (at.StartPrevious? ==> es.live == [])
  }

  predicate Alone(s: Sys) {
    && |s.engines.live| <= 1
    && (s.app.Ready? && s.app.managed ==> Held(s.engines))
    && (s.app.Updating? ==> AloneAt(s.engines, s.app.at, s.app.update, s.app.managed))
  }

  lemma AloneBoot(s: Sys, o: Outcome)
    requires Alone(s) && s.app.Boot? && Clear(o)
    ensures Alone(BootStep(s, s.app.boot, s.app.loaded, s.app.choice, o))
  {
    hide Lower, Elsewhere, Save, Extracted, AloneAt;
  }

  lemma AlonePrepare(s: Sys, o: Outcome)
    requires Inv(s) && Alone(s) && s.app.Updating? && Clear(o)
    requires s.app.at.RemoveOld? || s.app.at.Extract? || s.app.at.Verify? || s.app.at.SavePending?
    ensures Alone(UpdateStep(s, o))
  {
    hide Newer, Lower, Elsewhere, Save, Extracted, RecordAt, MilestonesAt;
  }

  lemma AloneSwitch(s: Sys, o: Outcome)
    requires Inv(s) && Alone(s) && s.app.Updating? && Clear(o)
    requires s.app.at.VerifyPrevious? || s.app.at.AbandonPending? || s.app.at.StopCurrent? || s.app.at.StartCandidate?
    ensures Alone(UpdateStep(s, o))
  {
    hide Newer, Lower, Elsewhere, Save, Extracted, RecordAt, MilestonesAt;
  }

  lemma AloneCommit(s: Sys, o: Outcome)
    requires Inv(s) && Alone(s) && s.app.Updating? && Clear(o)
    requires s.app.at.CandidateHealth? || s.app.at.Commit? || s.app.at.StopCandidate?
    ensures Alone(UpdateStep(s, o))
  {
    hide Newer, Lower, Elsewhere, Save, Extracted, RecordAt, MilestonesAt;
  }

  lemma AloneFinish(s: Sys, o: Outcome)
    requires Inv(s) && Alone(s) && s.app.Updating? && Clear(o)
    requires s.app.at.StartPrevious? || s.app.at.PreviousHealth? || s.app.at.StopLeftover? || s.app.at.SaveRolledBack?
             || s.app.at.Done?
    ensures Alone(UpdateStep(s, o))
  {
    hide Newer, Lower, Elsewhere, Save, Extracted, RecordAt, MilestonesAt;
  }

  lemma AloneUpdate(s: Sys, o: Outcome)
    requires Inv(s) && Alone(s) && s.app.Updating? && Clear(o)
    ensures Alone(UpdateStep(s, o))
  {
    hide Inv, Alone, UpdateStep, Clear;
    match s.app.at
    case RemoveOld => AlonePrepare(s, o);
    case Extract => AlonePrepare(s, o);
    case Verify => AlonePrepare(s, o);
    case SavePending => AlonePrepare(s, o);
    case VerifyPrevious => AloneSwitch(s, o);
    case AbandonPending => AloneSwitch(s, o);
    case StopCurrent => AloneSwitch(s, o);
    case StartCandidate => AloneSwitch(s, o);
    case CandidateHealth => AloneCommit(s, o);
    case Commit => AloneCommit(s, o);
    case StopCandidate => AloneCommit(s, o);
    case _ => AloneFinish(s, o);
  }

  lemma AloneConnect(s: Sys, o: Outcome)
    requires Alone(s) && Clear(o)
    ensures Alone(Connect(s, o)) && Alone(Disconnect(s, o))
  {
    hide Lower, Elsewhere, Save, Extracted, AloneAt, Verifies;
  }

  lemma ClearOutcome(f: Faults, o: Outcome)
    requires Sighted(f) && AllowedOutcome(f, o)
    ensures Clear(o)
  {}

  lemma AloneStep(f: Faults, s: Sys, e: Event)
    requires Inv(s) && Alone(s) && Sighted(f) && Allowed(f, s, e)
    ensures Alone(Apply(s, e))
  {
    hide Newer, Lower, Inv, BootStep, UpdateStep, Connect, Disconnect, KeepSet, Sighted, Clear, AllowedOutcome;
    match e
    case BootEvent(o) =>
      ClearOutcome(f, o);
      if s.app.Boot? { AloneBoot(s, o); }
    case UpdateEvent(o) =>
      ClearOutcome(f, o);
      if s.app.Updating? { AloneUpdate(s, o); }
    case ConnectEvent(o) =>
      ClearOutcome(f, o);
      AloneConnect(s, o);
    case DisconnectEvent(o) =>
      ClearOutcome(f, o);
      AloneConnect(s, o);
    case _ =>
  }

  /** Over every run without those faults there is one engine at most. */
  lemma {:induction false} AloneRun(f: Faults, s: Sys, events: seq<Event>)
    requires Sighted(f) && Start(s) && |s.engines.live| <= 1 && AllowedRun(f, s, events)
    ensures Alone(Run(s, events))
    decreases |events|
  {
    hide Inv, Apply, Allowed, Sighted, AloneAt;
    if events != [] {
      AloneRun(f, s, events[..|events| - 1]);
      RunKeeps(s, events[..|events| - 1]);
      AloneStep(f, Run(s, events[..|events| - 1]), events[|events| - 1]);
    }
  }

  // ---- without the faults that let a record be lost -----------------------------------------

  predicate Remembering(f: Faults) { Sighted(f) && !f.unreadRecords && !f.lostRecords }

  lemma HeldUpdate(s: Sys, o: Outcome)
    requires Inv(s) && Alone(s) && Held(s.engines) && s.app.Updating? && Clear(o) && o.see == Seen
    ensures Held(UpdateStep(s, o).engines)
  {
    hide Newer, Lower, Elsewhere, Save, Extracted, RecordAt, MilestonesAt;
  }

  lemma HeldBoot(s: Sys, o: Outcome)
    requires Alone(s) && Held(s.engines) && s.app.Boot? && Clear(o) && o.see == Seen
    ensures var s' := BootStep(s, s.app.boot, s.app.loaded, s.app.choice, o);
            Held(s'.engines) && !HasStranger(s')
  {
    hide Lower, Elsewhere, Save, Extracted, AloneAt;
  }

  lemma SeenOutcome(f: Faults, o: Outcome)
    requires Remembering(f) && AllowedOutcome(f, o)
    ensures Clear(o) && o.see == Seen
  {}

  lemma HeldStep(f: Faults, s: Sys, e: Event)
    requires Inv(s) && Alone(s) && Held(s.engines) && Remembering(f) && Allowed(f, s, e)
    ensures Held(Apply(s, e).engines) && (s.app.Boot? ==> !HasStranger(Apply(s, e)))
  {
    hide Newer, Lower, Inv, BootStep, UpdateStep, KeepSet, Remembering, AllowedOutcome, HasStranger, Verifies, Extracted;
    if s.app.Boot? && !e.BootEvent? { NotReadyNoStranger(s, e); }
    match e
    case BootEvent(o) =>
      SeenOutcome(f, o);
      if s.app.Boot? { HeldBoot(s, o); }
    case UpdateEvent(o) =>
      SeenOutcome(f, o);
      if s.app.Updating? { HeldUpdate(s, o); }
    case ConnectEvent(o) => SeenOutcome(f, o);
    case DisconnectEvent(o) => SeenOutcome(f, o);
    case _ =>
  }

  lemma NotReadyNoStranger(s: Sys, e: Event)
    requires s.app.Boot? && !e.BootEvent?
    ensures !HasStranger(Apply(s, e))
  {
    hide KeepSet, Cleaned;
  }

  /** Over every run without those faults the record names the engine if there is one, and no
      startup succeeds beside a strange engine. */
  lemma {:induction false} HeldRun(f: Faults, s: Sys, events: seq<Event>)
    requires Remembering(f) && StartFor(Stranger, s) && AllowedRun(f, s, events)
    ensures Held(Run(s, events).engines) && !Ends(Stranger, s, events)
    decreases |events|
  {
    hide Inv, Apply, Allowed, Sighted, Alone, HasStranger;
    if events != [] {
      var front := events[..|events| - 1];
      HeldRun(f, s, front);
      RunKeeps(s, front);
      AloneRun(f, s, front);
      HeldStep(f, Run(s, front), events[|events| - 1]);
    }
  }

  // ---- two engines at once --------------------------------------------------------------------

  /** A connect that does not see the engine it manages starts another. */
  lemma UnseenQueryDoubles(f: Faults)
    requires f.unseenQueries
    ensures Can(f, TwoEngines, FirstStart())
  {
    hide Can, Lower;
    var o := YES.(again := false);
    var s1 := Apply(FirstReady(), ConnectEvent(o));
    CanNow(f, TwoEngines, s1);
    CanBefore(f, TwoEngines, FirstReady(), ConnectEvent(o), s1);
    BootToReady(f, TwoEngines);
  }

  /** The old engine lives on, and the candidate has started beside it. */
  function Both(app: App): Sys { Sys(OLD, Disk2(PendingOld()), Engines([OLD, NEW], true), app) }

  function Switched(at: UpdateAt, started: bool, healthy: bool): App {
    Updating(at, Upd(true, started, true, started, healthy), OLD, false)
  }

  lemma KeptStep()
    ensures Apply(Stopping(), UpdateEvent(YES.(stop := UnseenKept)))
            == Sys(OLD, Disk2(PendingOld()), One(OLD), Switched(StartCandidate, false, false))
    ensures Apply(Stopping(), UpdateEvent(YES.(stop := Unseen)))
            == Sys(OLD, Disk2(PendingOld()), Engines([OLD], false), Switched(StartCandidate, false, false))
  {
    hide Save, PendingState, Lower;
  }

  lemma JoinedStep(named: bool)
    ensures Apply(Sys(OLD, Disk2(PendingOld()), Engines([OLD], named), Switched(StartCandidate, false, false)), UpdateEvent(YES))
            == Both(Switched(CandidateHealth, true, false))
  {
    hide Save, PendingState, Lower;
  }

  lemma UnseenStopAllowed(f: Faults, s: Sys)
    ensures f.unseenStops ==> Allowed(f, s, UpdateEvent(YES.(stop := Unseen)))
    ensures f.keptStops ==> Allowed(f, s, UpdateEvent(YES.(stop := UnseenKept)))
  {}

  /** An update takes the old engine for a dead one. */
  lemma StartToBoth(f: Faults, h: Harm)
    requires f.unseenStops || f.keptStops
    requires Can(f, h, Both(Switched(CandidateHealth, true, false)))
    ensures Can(f, h, FirstStart())
  {
    hide *;
    KeptStep();
    JoinedStep(f.keptStops);
    UnseenStopAllowed(f, Stopping());
    var s1 := Sys(OLD, Disk2(PendingOld()), Engines([OLD], f.keptStops), Switched(StartCandidate, false, false));
    assert One(OLD) == Engines([OLD], true) by { OneIs(OLD); }
    CalmUpdate(f, s1);
    CanBefore(f, h, s1, UpdateEvent(YES), Both(Switched(CandidateHealth, true, false)));
    CanBefore(f, h, Stopping(), UpdateEvent(YES.(stop := if f.keptStops then UnseenKept else Unseen)), s1);
    StartToStopping(f, h);
  }

  lemma OneIs(version: string)
    ensures One(version) == Engines([version], true)
  {}

  /** A connect after a rollback that lost its manager starts an engine beside one that the list of
      processes misses. */
  function Doubled(): Sys {
    Sys(OLD, Extracted(Disk2(PendingOld()), OLD, true), Engines([OLD, OLD], true), Ready(OLD, true))
  }

  lemma MissedStep(f: Faults)
    requires f.missedProcesses
    ensures Apply(LostManager(), ConnectEvent(YES.(listed := false))) == Doubled()
    ensures Allowed(f, LostManager(), ConnectEvent(YES.(listed := false)))
  {
    hide Lower, PendingState;
  }

  lemma StartToDoubled(f: Faults, h: Harm)
    requires f.missedProcesses && Can(f, h, Doubled())
    ensures Can(f, h, FirstStart())
  {
    hide *;
    MissedStep(f);
    CanBefore(f, h, LostManager(), ConnectEvent(YES.(listed := false)), Doubled());
    StartToLostManager(f, h);
  }

  /** Each fault alone suffices. */
  lemma FaultDoubles(f: Faults)
    requires !Sighted(f)
    ensures Can(f, TwoEngines, FirstStart())
  {
    hide Can, Disk2, PendingOld, Extracted, FirstStart;
    if f.unseenQueries { UnseenQueryDoubles(f); }
    else if f.missedProcesses {
      CanNow(f, TwoEngines, Doubled());
      StartToDoubled(f, TwoEngines);
    } else {
      CanNow(f, TwoEngines, Both(Switched(CandidateHealth, true, false)));
      StartToBoth(f, TwoEngines);
    }
  }

  /** Whatever else a run contains, two engines never live at once exactly when every manager sees
      the engine whose record it holds, no stop takes a live engine for a dead one, and the list of
      processes is complete. */
  lemma OneEngineExactly(f: Faults)
    ensures Never(f, TwoEngines) <==> !f.unseenQueries && !f.unseenStops && !f.keptStops && !f.missedProcesses
  {
    hide AllowedRun, Run, Can, FirstStart, AloneAt, Inv;
    if Sighted(f) {
      forall s, events | StartFor(TwoEngines, s) && AllowedRun(f, s, events) ensures !Ends(TwoEngines, s, events) {
        AloneRun(f, s, events);
      }
    } else {
      FaultDoubles(f);
      FirstIsClean(TwoEngines);
      CanBreaks(f, TwoEngines, FirstStart());
    }
  }

  // ---- a startup beside a strange engine --------------------------------------------------------

  /** The last check of a startup lets an engine of another version pass. */
  lemma CheckPasses(f: Faults, d: Disk, loaded: StateFile, choice: string, es: Engines, i: nat, o: Outcome)
    requires i < |es.live| && !SameImage(es.live[i], choice)
    requires o.ok && AllowedOutcome(f, o)
    requires Meets(es, o.see) && o.again ==> SameImage(es.live[|es.live| - 1], choice)
    ensures Can(f, Stranger, Sys(OLD, d, es, Boot(FinalCheck, loaded, choice)))
  {
    hide Can, SameImage;
    var s := Sys(OLD, d, es, Boot(FinalCheck, loaded, choice));
    var s' := Apply(s, BootEvent(o));
    assert s'.app.Ready? && s'.engines.live[i] == es.live[i];
    CanStrange(f, s, BootEvent(o));
  }

  lemma RecoveredIs(es: Engines)
    ensures Recovered(es) == Sys(OLD, Disk2(ClearedOld()), es, Boot(FinalCheck, Record(PendingOld()), OLD))
  {}

  /** The recovery leaves the crashed candidate's engine alive, and the next check passes it. */
  lemma RecoveredPasses(f: Faults, es: Engines, o: Outcome)
    requires es.live == [NEW] && o.ok && AllowedOutcome(f, o) && !Meets(es, o.see)
    ensures Can(f, Stranger, Recovered(es))
  {
    hide *;
    OldAndNew();
    RecoveredIs(es);
    assert es.live[0] == NEW;
    NewIsNotOld();
    CheckPasses(f, Disk2(ClearedOld()), Record(PendingOld()), OLD, es, 0, o);
  }

  lemma NewIsNotOld()
    ensures !SameImage(NEW, OLD)
  {
    OldAndNew();
  }

  lemma UnknownCandidate(f: Faults)
    requires f.unreadRecords || f.lostRecords || f.unseenStops
    ensures Can(f, Stranger, FirstStart())
  {
    hide Can, Recovered, Crashed, FirstStart;
    var lost := Engines([NEW], false);
    if f.unreadRecords {
      RecoveredPasses(f, One(NEW), YES.(see := Unread));
      CrashedUnseen(f, Stranger, Unread);
    } else if f.lostRecords {
      RecoveredPasses(f, lost, YES);
      CrashedUnseen(f, Stranger, Lost);
    } else {
      RecoveredPasses(f, lost, YES);
      CrashedStopped(f, Stranger, Unseen);
    }
    StartToCrashed(f, Stranger);
  }

  function BothCommitted(app: App): Sys { Sys(OLD, Disk2(CommittedNew()), Engines([OLD, NEW], true), app) }

  lemma BothStep()
    ensures Apply(Both(Switched(CandidateHealth, true, false)), UpdateEvent(YES)) == Both(Switched(Commit, true, true))
    ensures Apply(Both(Switched(Commit, true, true)), UpdateEvent(YES)) == BothCommitted(Switched(Done(Applied), true, true))
    ensures Apply(BothCommitted(Switched(Done(Applied), true, true)), Crash) == BothCommitted(Down)
  {
    hide PendingState, Lower;
  }

  lemma BothCommittedPasses(f: Faults)
    ensures Can(f, Stranger, BothCommitted(Down))
  {
    hide Can, Lower;
    OldAndNew();
    var es := Engines([OLD, NEW], true);
    CheckPasses(f, Disk2(CommittedNew()), Record(CommittedNew()), NEW, es, 0, YES);
    BootToCheck(f, Stranger, Disk2(CommittedNew()), es, CommittedNew());
  }

  /** The update commits the candidate beside the old engine. */
  lemma CommittedBeside(f: Faults)
    requires f.keptStops
    ensures Can(f, Stranger, FirstStart())
  {
    hide *;
    BothStep();
    BothCommittedPasses(f);
    forall s ensures Allowed(f, s, UpdateEvent(YES)) && Allowed(f, s, Crash) { CalmUpdate(f, s); CrashAllowed(f, s); }
    CanBefore(f, Stranger, BothCommitted(Switched(Done(Applied), true, true)), Crash, BothCommitted(Down));
    CanBefore(f, Stranger, Both(Switched(Commit, true, true)), UpdateEvent(YES), BothCommitted(Switched(Done(Applied), true, true)));
    CanBefore(f, Stranger, Both(Switched(CandidateHealth, true, false)), UpdateEvent(YES), Both(Switched(Commit, true, true)));
    StartToBoth(f, Stranger);
  }

  lemma CrashAllowed(f: Faults, s: Sys)
    ensures Allowed(f, s, Crash)
  {}

  /** An update that believes that no engine runs commits beside the old engine. */
  lemma IdlePasses(f: Faults, d: Disk, es: Engines, r: Stored, managed: bool, o: Outcome)
    requires d.record == Record(r) && es.live == [OLD] && o == YES.(again := o.again) && AllowedOutcome(f, o)
    requires !(es.named && o.again)
    ensures Can(f, Stranger, Sys(OLD, d, es, Updating(RemoveOld, Idle(r, false), OLD, managed)))
  {
    hide Can, Lower, Newer;
    OldAndNew();
    var d', r' := Updated(d, r), CommittedState(Idle(r, false));
    CheckPasses(f, d', Record(r'), NEW, es, 0, o);
    BootToCheck(f, Stranger, d', es, r');
    IdleUpdate(f, Stranger, d, es, r, managed, o);
  }

  lemma UnseenEngineStays(f: Faults)
    requires f.unseenQueries
    ensures Can(f, Stranger, FirstStart())
  {
    hide Can, Lower, Newer, Updated;
    IdlePasses(f, Disk1(OLD_STATE), One(OLD), OLD_STATE, true, YES.(again := false));
    ReadyToBegan(f, Stranger);
  }

  /** The recorded engine of the two has exited. */
  function Forgotten(app: App): Sys {
    Sys(OLD, Extracted(Disk2(PendingOld()), OLD, true), Engines([OLD], false), app)
  }

  lemma ForgottenStep(f: Faults)
    ensures Apply(Doubled(), EngineExits(1)) == Forgotten(Ready(OLD, false))
    ensures Allowed(f, Doubled(), EngineExits(1))
    ensures Apply(Forgotten(Ready(OLD, false)), BeginEvent(NEW, "", "", true))
            == Forgotten(Updating(RemoveOld, Idle(PendingOld(), false), OLD, false))
    ensures Allowed(f, Forgotten(Ready(OLD, false)), BeginEvent(NEW, "", "", true))
  {
    hide Lower, Newer;
    OldAndNew();
    assert [OLD, OLD][..1] + [OLD, OLD][2..] == [OLD];
  }

  lemma MissedEngineStays(f: Faults)
    requires f.missedProcesses
    ensures Can(f, Stranger, FirstStart())
  {
    hide Can, Apply, Allowed, Updated, Idle, PendingState, Lower, Doubled, AllowedOutcome, FirstStart;
    ForgottenStep(f);
    CalmOutcome(f);
    IdlePasses(f, Extracted(Disk2(PendingOld()), OLD, true), Engines([OLD], false), PendingOld(), false, YES);
    CanBefore(f, Stranger, Forgotten(Ready(OLD, false)), BeginEvent(NEW, "", "", true),
              Forgotten(Updating(RemoveOld, Idle(PendingOld(), false), OLD, false)));
    CanBefore(f, Stranger, Doubled(), EngineExits(1), Forgotten(Ready(OLD, false)));
    StartToDoubled(f, Stranger);
  }

  lemma CalmOutcome(f: Faults)
    ensures AllowedOutcome(f, YES)
  {}

  /** Each fault alone suffices. */
  lemma FaultLetsPass(f: Faults)
    requires !Remembering(f)
    ensures Can(f, Stranger, FirstStart())
  {
    hide Can, FirstStart;
    if f.unreadRecords || f.lostRecords || f.unseenStops { UnknownCandidate(f); }
    else if f.keptStops { CommittedBeside(f); }
    else if f.unseenQueries { UnseenEngineStays(f); }
    else { MissedEngineStays(f); }
  }

  /** Whatever else a run contains, a startup never succeeds beside an engine of a version other
      than the selected one exactly when, besides what keeps the engines apart, every new manager
      reads the process record and confirms the engine it names. */
  lemma NoStrangerExactly(f: Faults)
    ensures Never(f, Stranger) <==>
              !f.unreadRecords && !f.lostRecords && !f.unseenQueries && !f.unseenStops && !f.keptStops
              && !f.missedProcesses
  {
    hide AllowedRun, Run, Can, FirstStart, Ends, Inv;
    if Remembering(f) {
      forall s, events | StartFor(Stranger, s) && AllowedRun(f, s, events) ensures !Ends(Stranger, s, events) {
        HeldRun(f, s, events);
      }
    } else {
      FaultLetsPass(f);
      FirstIsClean(Stranger);
      CanBreaks(f, Stranger, FirstStart());
    }
  }
}
