/** The faults a run may contain, what they may do harm to, and the runs that the exactness
    results share. */
module RuntimeFaults {
  import opened Texts
  import opened UpdateManifest
  import opened RuntimeModel
  import opened RuntimeInvariant

  /** Besides these a run may always contain crashes, process exits, damaged files, failed starts,
      failed health checks and saves that fail with the old record in place. */
  datatype Faults = Faults(
    ambiguousSaves: bool,    // a save fails after it took effect
    failingStops: bool,      // a stop fails, with the process alive or dead
    unmanagedUpdates: bool,  // an update begins beside a recorded engine that the manager lost
    failingReads: bool,      // a launch cannot read which version to select
    unreadRecords: bool,     // a new manager cannot read or confirm the process record
    lostRecords: bool,       // a new manager cannot confirm the record of a live engine and deletes it
    unseenQueries: bool,     // a manager that holds the record of a live engine does not see it
    unseenStops: bool,       // a stop takes a live engine for a dead one and deletes the record
    keptStops: bool,         // the same, but the record cannot be deleted
    missedProcesses: bool)   // the list of processes misses an engine

  predicate AllowedOutcome(f: Faults, o: Outcome) {
    && (o.save == FailedNew ==> f.ambiguousSaves)
    && (o.stop == FailedAlive || o.stop == FailedGone ==> f.failingStops)
    && (o.stop == Unseen ==> f.unseenStops) && (o.stop == UnseenKept ==> f.keptStops)
    && (o.see == Unread ==> f.unreadRecords) && (o.see == Lost ==> f.lostRecords)
    && (!o.again || !o.trusts ==> f.unseenQueries) && (!o.listed ==> f.missedProcesses)
  }

  predicate Allowed(f: Faults, s: Sys, e: Event) {
    match e
    case Launch(read) => !read ==> f.failingReads
    case BootEvent(o) => AllowedOutcome(f, o)
    case UpdateEvent(o) => AllowedOutcome(f, o)
    case ConnectEvent(o) => AllowedOutcome(f, o)
    case DisconnectEvent(o) => AllowedOutcome(f, o)
    case BeginEvent(_, _, _, _) => s.app.Ready? && Running(s) && !s.app.managed ==> f.unmanagedUpdates
    case _ => true
  }

  predicate AllowedRun(f: Faults, s: Sys, events: seq<Event>)
    decreases |events|
  {
    events == [] || (AllowedRun(f, s, events[..|events| - 1])
                     && Allowed(f, Run(s, events[..|events| - 1]), events[|events| - 1]))
  }

  // ---- what can go wrong --------------------------------------------------------------------

  /** A start refused over the recorded engine, two engines at once, or a startup that succeeds
      beside an engine of another version. */
  datatype Harm = LockOut | TwoEngines | Stranger

  predicate LockedOut(s: Sys) { s.app == Refused(UnknownRuntime) || s.app == Refused(WrongEngine) }

  /** Some live engine has not the image of the selected version. */
  predicate HasStranger(s: Sys) {
    s.app.Ready? && exists i | 0 <= i < |s.engines.live| :: !SameImage(s.engines.live[i], s.app.selected)
  }

  predicate Ends(h: Harm, s: Sys, events: seq<Event>) {
    match h
    case LockOut => LockedOut(Run(s, events))
    case TwoEngines => |Run(s, events).engines.live| > 1
    case Stranger => events != [] && Run(s, events[..|events| - 1]).app.Boot? && HasStranger(Run(s, events))
  }

  /** A first state in which the harm has not been done yet. */
  predicate StartFor(h: Harm, s: Sys) {
    && Start(s)
    && match h
       case LockOut => NothingPending(s.disk.record) && (Running(s) ==> SameImage(Live(s), CurrentVersion(s)))
       case TwoEngines => |s.engines.live| <= 1
       case Stranger => |s.engines.live| <= 1 && (s.engines.live != [] ==> s.engines.named)
  }

  /** No run that contains only faults of `f` does the harm. */
  ghost predicate Never(f: Faults, h: Harm) {
    forall s, events | StartFor(h, s) && AllowedRun(f, s, events) :: !Ends(h, s, events)
  }

  /** Some allowed run from `s` does the harm. */
  ghost predicate Can(f: Faults, h: Harm, s: Sys) {
    exists events :: AllowedRun(f, s, events) && Ends(h, s, events)
  }

  lemma CanBreaks(f: Faults, h: Harm, s: Sys)
    requires StartFor(h, s) && Can(f, h, s)
    ensures !Never(f, h)
  {
    hide StartFor, AllowedRun, Ends;
  }

  // ---- runs, put together from their first event ---------------------------------------------

  lemma {:induction false} RunCons(s: Sys, e: Event, rest: seq<Event>)
    ensures Run(s, [e] + rest) == Run(Apply(s, e), rest)
    decreases |rest|
  {
    hide Apply;
    var all := [e] + rest;
    if rest == [] {
      assert all[..0] == [] && all == [e];
    } else {
      assert all[..|all| - 1] == [e] + rest[..|rest| - 1];
      RunCons(s, e, rest[..|rest| - 1]);
    }
  }

  lemma {:induction false} AllowedCons(f: Faults, s: Sys, e: Event, rest: seq<Event>)
    requires Allowed(f, s, e) && AllowedRun(f, Apply(s, e), rest)
    ensures AllowedRun(f, s, [e] + rest)
    decreases |rest|
  {
    hide Apply, Allowed;
    var all := [e] + rest;
    if rest == [] {
      assert all[..0] == [] && all == [e];
      assert Run(s, []) == s;
    } else {
      assert all[..|all| - 1] == [e] + rest[..|rest| - 1];
      AllowedCons(f, s, e, rest[..|rest| - 1]);
      RunCons(s, e, rest[..|rest| - 1]);
    }
  }

  lemma EndsCons(h: Harm, s: Sys, e: Event, rest: seq<Event>)
    requires Ends(h, Apply(s, e), rest)
    ensures Ends(h, s, [e] + rest)
  {
    hide Apply, Run, LockedOut, HasStranger;
    RunCons(s, e, rest);
    if h == Stranger {
      var all := [e] + rest;
      assert all[..|all| - 1] == [e] + rest[..|rest| - 1];
      RunCons(s, e, rest[..|rest| - 1]);
    }
  }

  /** One allowed step towards the harm. */
  lemma CanBefore(f: Faults, h: Harm, s: Sys, e: Event, s': Sys)
    requires Allowed(f, s, e) && Apply(s, e) == s' && Can(f, h, s')
    ensures Can(f, h, s)
  {
    hide Apply, Allowed, Run, Ends;
    var rest :| AllowedRun(f, s', rest) && Ends(h, s', rest);
    AllowedCons(f, s, e, rest);
    EndsCons(h, s, e, rest);
  }

  lemma CanNow(f: Faults, h: Harm, s: Sys)
    requires (h == LockOut && LockedOut(s)) || (h == TwoEngines && |s.engines.live| > 1)
    ensures Can(f, h, s)
  {
    assert AllowedRun(f, s, []) && Run(s, []) == s;
  }

  /** A startup step that succeeds beside a strange engine. */
  lemma CanStrange(f: Faults, s: Sys, e: Event)
    requires Allowed(f, s, e) && s.app.Boot? && HasStranger(Apply(s, e))
    ensures Can(f, Stranger, s)
  {
    hide Apply, HasStranger, Allowed;
    var events := [e];
    assert events[..0] == [] && Run(s, []) == s && Run(s, events) == Apply(s, e);
    assert AllowedRun(f, s, events);
  }

  // ---- two versions -------------------------------------------------------------------------

  const OLD: string := "1"
  const NEW: string := "2"

  const NO: Outcome := YES.(ok := false)
  const OLD_STATE: Stored := Stored(OLD, "", "", "", "", "")

  const NONE: Engines := Engines([], false)

  function One(version: string): Engines { Engines([version], true) }

  function Disk1(record: Stored): Disk { Disk(Record(record), {}, {}) }

  function Disk2(record: Stored): Disk { Disk(Record(record), {NEW}, {NEW}) }

  function Upd(running: bool, owned: bool, verified: bool, started: bool, healthy: bool): Update {
    Update(OLD_STATE, NEW, "", "", running, owned, verified, started, healthy)
  }

  lemma OldAndNew()
    ensures Newer(NEW, OLD) && Lower(OLD) == OLD && Lower(NEW) == NEW && !SameImage(OLD, NEW) && OLD != NEW
  {
    hide Newer;
    PlainOne();
    assert Lower(OLD)[0] == '1' && Lower(NEW)[0] == '2';
    assert Lower(OLD) == OLD && Lower(NEW) == NEW;
  }

  /** The record while candidate `NEW` is pending. */
  function PendingOld(): Stored { PendingState(Upd(false, false, false, false, false)) }

  function CommittedNew(): Stored { CommittedState(Upd(false, false, false, false, false)) }

  // ---- a startup with nothing pending ----------------------------------------------------------

  /** The startup has come to its last check. */
  function Checking(d: Disk, es: Engines, r: Stored): Sys { Sys(OLD, d, es, Boot(FinalCheck, Record(r), r.current)) }

  lemma BootToCheck(f: Faults, h: Harm, d: Disk, es: Engines, r: Stored)
    requires d.record == Record(r) && r.pending == "" && (r.current == OLD || Verifies(d, r.current))
    requires Can(f, h, Checking(d, es, r))
    ensures Can(f, h, Sys(OLD, d, es, Down))
  {
    hide Can, Lower;
    var s0 := Sys(OLD, d, es, Down);
    var s1 := s0.(app := Boot(Loaded, Record(r), r.current));
    var s2 := s0.(app := Boot(CheckCurrent, Record(r), r.current));
    var s3 := Checking(d, es, r);
    CanBefore(f, h, s2, BootEvent(YES), s3);
    CanBefore(f, h, s1, BootEvent(YES), s2);
    CanBefore(f, h, s0, Launch(true), s1);
  }

  /** The last check of a startup refuses a recorded engine of another version. */
  lemma CheckLocks(f: Faults, d: Disk, loaded: StateFile, choice: string, engine: string)
    requires !SameImage(engine, choice)
    ensures Can(f, LockOut, Sys(OLD, d, One(engine), Boot(FinalCheck, loaded, choice)))
  {
    hide Can, Lower;
    var s3 := Sys(OLD, d, One(engine), Boot(FinalCheck, loaded, choice));
    var s4 := Sys(OLD, d, One(engine), Refused(WrongEngine));
    CanNow(f, LockOut, s4);
    CanBefore(f, LockOut, s3, BootEvent(YES), s4);
  }

  lemma TailLocks(f: Faults, d: Disk, r: Stored, engine: string)
    requires d.record == Record(r) && r.pending == "" && !SameImage(engine, r.current)
    requires r.current == OLD || Verifies(d, r.current)
    ensures Can(f, LockOut, Sys(OLD, d, One(engine), Down))
  {
    hide Can, Lower;
    CheckLocks(f, d, Record(r), r.current, engine);
    BootToCheck(f, LockOut, d, One(engine), r);
  }

  // ---- from a first start to the switch of an update --------------------------------------------

  /** The state every run starts from: version `OLD`, its engine alive, nothing pending. */
  function FirstStart(): Sys { Sys(OLD, Disk1(OLD_STATE), One(OLD), Down) }

  lemma FirstIsClean(h: Harm)
    ensures StartFor(h, FirstStart())
  {}

  /** The launcher has started and manages the engine. */
  function FirstReady(): Sys { FirstStart().(app := Ready(OLD, true)) }

  lemma BootToReady(f: Faults, h: Harm)
    requires Can(f, h, FirstReady())
    ensures Can(f, h, FirstStart())
  {
    hide Can, Lower;
    var s3 := Checking(Disk1(OLD_STATE), One(OLD), OLD_STATE);
    CanBefore(f, h, s3, BootEvent(YES), FirstReady());
    BootToCheck(f, h, Disk1(OLD_STATE), One(OLD), OLD_STATE);
  }

  /** It is about to apply the update to `NEW`. */
  function Began(): Sys {
    FirstStart().(app := Updating(RemoveOld, Upd(false, false, false, false, false), OLD, true))
  }

  lemma ReadyToBegan(f: Faults, h: Harm)
    requires Can(f, h, Began())
    ensures Can(f, h, FirstStart())
  {
    hide Can, Lower, Newer;
    OldAndNew();
    CanBefore(f, h, FirstReady(), BeginEvent(NEW, "", "", true), Began());
    BootToReady(f, h);
  }

  /** The candidate is verified and pending, and the old engine about to be stopped. */
  function Stopping(): Sys {
    Sys(OLD, Disk2(PendingOld()), One(OLD), Updating(StopCurrent, Upd(true, false, true, false, false), OLD, true))
  }

  lemma BeganToStopping(f: Faults, h: Harm)
    requires Can(f, h, Stopping())
    ensures Can(f, h, Began())
  {
    hide Can, Lower, Newer, Cleaned, KeepSet, Connect, Disconnect;
    OldAndNew();
    var s0 := Began();
    var s1 := s0.(app := s0.app.(at := Extract));
    var s2 := s0.(disk := Disk2(OLD_STATE), app := s0.app.(at := Verify));
    var s3 := s2.(app := Updating(SavePending, Upd(true, false, true, false, false), OLD, true));
    CanBefore(f, h, s3, UpdateEvent(YES), Stopping());
    CanBefore(f, h, s2, UpdateEvent(YES), s3);
    CanBefore(f, h, s1, UpdateEvent(YES), s2);
    CanBefore(f, h, s0, UpdateEvent(YES), s1);
  }

  lemma StartToStopping(f: Faults, h: Harm)
    requires Can(f, h, Stopping())
    ensures Can(f, h, FirstStart())
  {
    hide *;
    BeganToStopping(f, h);
    ReadyToBegan(f, h);
  }

  /** The old engine was stopped and the verified candidate is about to start. */
  function Switching(): Sys {
    Sys(OLD, Disk2(PendingOld()), NONE, Updating(StartCandidate, Upd(true, false, true, false, false), OLD, false))
  }

  lemma StartToSwitching(f: Faults, h: Harm)
    requires Can(f, h, Switching())
    ensures Can(f, h, FirstStart())
  {
    hide Can, Lower, Newer, Cleaned, KeepSet, Connect, Disconnect;
    CanBefore(f, h, Stopping(), UpdateEvent(YES), Switching());
    StartToStopping(f, h);
  }

  /** The launcher has ended right after the start of the candidate. */
  function Crashed(): Sys { Sys(OLD, Disk2(PendingOld()), One(NEW), Down) }

  lemma StartToCrashed(f: Faults, h: Harm)
    requires Can(f, h, Crashed())
    ensures Can(f, h, FirstStart())
  {
    hide Can, Lower, Newer, Cleaned, KeepSet, Connect, Disconnect;
    OldAndNew();
    var s1 := Sys(OLD, Disk2(PendingOld()), One(NEW),
                  Updating(CandidateHealth, Upd(true, true, true, true, false), OLD, false));
    CanBefore(f, h, s1, Crash, Crashed());
    CanBefore(f, h, Switching(), UpdateEvent(YES), s1);
    StartToSwitching(f, h);
  }

  // ---- the recovery of the crashed update ---------------------------------------------------------

  /** The record after the recovery. */
  function ClearedOld(): Stored { PendingOld().(pending := "", lastResult := "interrupted-pending-rolled-back") }

  /** The recovery has cleared the mark and left these engines. */
  function Recovered(es: Engines): Sys {
    Sys(OLD, Disk2(ClearedOld()), es, Boot(FinalCheck, Record(PendingOld()), OLD))
  }

  lemma ClearedToRecovered(f: Faults, h: Harm, es: Engines)
    requires Can(f, h, Recovered(es))
    ensures Can(f, h, Sys(OLD, Disk2(PendingOld()), es, Boot(ClearPending, Record(PendingOld()), OLD)))
  {
    hide Can, Lower;
    var s0 := Sys(OLD, Disk2(PendingOld()), es, Boot(ClearPending, Record(PendingOld()), OLD));
    var s1 := Sys(OLD, Disk2(ClearedOld()), es, Boot(CheckCurrent, Record(PendingOld()), OLD));
    CanBefore(f, h, s1, BootEvent(YES), Recovered(es));
    CanBefore(f, h, s0, BootEvent(YES), s1);
  }

  /** The recovery does not see the candidate's engine and only clears the mark. */
  lemma CrashedUnseen(f: Faults, h: Harm, see: Sight)
    requires see == Unread || see == Lost
    requires AllowedOutcome(f, YES.(see := see)) && Can(f, h, Recovered(Met(One(NEW), see)))
    ensures Can(f, h, Crashed())
  {
    hide Can, Lower, Newer;
    var s1 := Crashed().(app := Boot(Loaded, Record(PendingOld()), OLD));
    var s2 := Sys(OLD, Disk2(PendingOld()), Met(One(NEW), see), Boot(ClearPending, Record(PendingOld()), OLD));
    ClearedToRecovered(f, h, Met(One(NEW), see));
    CanBefore(f, h, s1, BootEvent(YES.(see := see)), s2);
    CanBefore(f, h, Crashed(), Launch(true), s1);
  }

  /** The recovery stops the candidate's engine with this outcome, and believes it gone. */
  lemma CrashedStopped(f: Faults, h: Harm, stop: StopOutcome)
    requires StopOk(stop)
    requires AllowedOutcome(f, YES.(stop := stop)) && Can(f, h, Recovered(StopLast(One(NEW), stop)))
    ensures Can(f, h, Crashed())
  {
    hide Can, Lower, Newer;
    var s1 := Crashed().(app := Boot(Loaded, Record(PendingOld()), OLD));
    var s2 := s1.(app := Boot(StopPending, Record(PendingOld()), OLD));
    var s3 := Sys(OLD, Disk2(PendingOld()), StopLast(One(NEW), stop), Boot(ClearPending, Record(PendingOld()), OLD));
    ClearedToRecovered(f, h, StopLast(One(NEW), stop));
    CanBefore(f, h, s2, BootEvent(YES.(stop := stop)), s3);
    CanBefore(f, h, s1, BootEvent(YES), s2);
    CanBefore(f, h, Crashed(), Launch(true), s1);
  }

  // ---- an update that believes that no engine runs ------------------------------------------------

  /** The disk after an update to `NEW` that met nothing in its way. */
  function Updated(d: Disk, r: Stored): Disk {
    Extracted(d, NEW, true).(record := Record(CommittedState(Idle(r, false))))
  }

  function Idle(r: Stored, verified: bool): Update {
    Update(r, NEW, "", "", false, false, verified, false, false)
  }

  lemma IdleCommits(f: Faults, h: Harm, d: Disk, es: Engines, r: Stored, managed: bool)
    requires NEW in d.good && Can(f, h, Sys(OLD, d.(record := Record(CommittedState(Idle(r, false)))), es, Down))
    ensures Can(f, h, Sys(OLD, d, es, Updating(SavePending, Idle(r, true), OLD, managed)))
  {
    hide Can, Lower, Newer;
    var u := Idle(r, true);
    var s3 := Sys(OLD, d, es, Updating(SavePending, u, OLD, managed));
    var s4 := Sys(OLD, d.(record := Record(PendingState(u))), es, Updating(StopCurrent, u, OLD, managed));
    var s5 := s4.(app := s4.app.(at := StartCandidate));
    var s6 := s4.(app := s4.app.(at := CandidateHealth));
    var s7 := s4.(app := s4.app.(at := Commit));
    var s8 := Sys(OLD, d.(record := Record(CommittedState(u))), es, Updating(Done(Applied), u, OLD, managed));
    CanBefore(f, h, s8, Crash, s8.(app := Down));
    CanBefore(f, h, s7, UpdateEvent(YES), s8);
    CanBefore(f, h, s6, UpdateEvent(YES), s7);
    CanBefore(f, h, s5, UpdateEvent(YES), s6);
    CanBefore(f, h, s4, UpdateEvent(YES), s5);
    CanBefore(f, h, s3, UpdateEvent(YES), s4);
  }

  /** It commits `NEW` and leaves the engines alone, and then the launcher ends. */
  lemma IdleUpdate(f: Faults, h: Harm, d: Disk, es: Engines, r: Stored, managed: bool, o: Outcome)
    requires d.record == Record(r) && o == YES.(again := o.again) && AllowedOutcome(f, o)
    requires !(managed && IsNamed(es) && o.again)
    requires Can(f, h, Sys(OLD, Updated(d, r), es, Down))
    ensures Can(f, h, Sys(OLD, d, es, Updating(RemoveOld, Idle(r, false), OLD, managed)))
  {
    hide Can, Lower, Newer;
    OldAndNew();
    var u := Idle(r, false);
    var d1 := if Lower(NEW) in d.present then Without(d, NEW) else d;
    var d2 := Extracted(d1, NEW, true);
    SameExtracted(d);
    var s0 := Sys(OLD, d, es, Updating(RemoveOld, u, OLD, managed));
    var s1 := Sys(OLD, d1, es, Updating(Extract, u, OLD, managed));
    var s2 := Sys(OLD, d2, es, Updating(Verify, u, OLD, managed));
    var s3 := Sys(OLD, d2, es, Updating(SavePending, Idle(r, true), OLD, managed));
    IdleCommits(f, h, d2, es, r, managed);
    CanBefore(f, h, s2, UpdateEvent(o), s3);
    CanBefore(f, h, s1, UpdateEvent(YES), s2);
    CanBefore(f, h, s0, UpdateEvent(YES), s1);
  }

  lemma SameExtracted(d: Disk)
    ensures Extracted(Without(d, NEW), NEW, true) == Extracted(d, NEW, true)
  {
    hide Lower;
    assert Elsewhere(Elsewhere(d.good, NEW), NEW) == Elsewhere(d.good, NEW);
    assert d.present - {Lower(NEW)} + {Lower(NEW)} == d.present + {Lower(NEW)};
  }

  // ---- a rollback after which the manager holds nothing ---------------------------------------------

  /** The old engine runs again but the launcher's manager lost it, and `NEW` is still pending. */
  function LostManager(): Sys { Sys(OLD, Disk2(PendingOld()), One(OLD), Ready(OLD, false)) }

  /** The rollback of a candidate that did not start. */
  function RollingBack(at: UpdateAt): App { Updating(at, Upd(true, false, true, false, false), OLD, false) }

  function Restarted(app: App): Sys { Sys(OLD, Disk2(PendingOld()), One(OLD), app) }

  /** The old engine is gone, and the candidate did not start. */
  function Emptied(at: UpdateAt): Sys { Sys(OLD, Disk2(PendingOld()), NONE, RollingBack(at)) }

  lemma LeftoverStep()
    ensures Apply(Restarted(RollingBack(StopLeftover(true))), UpdateEvent(YES))
            == Restarted(RollingBack(SaveRolledBack(RolledBack)))
    ensures Apply(Restarted(RollingBack(PreviousHealth)), UpdateEvent(YES)) == Restarted(RollingBack(StopLeftover(true)))
  {
    hide Save, PendingState, RolledBackState, Lower;
  }

  lemma RollbackSaveStep()
    ensures Apply(Restarted(RollingBack(SaveRolledBack(RolledBack))), UpdateEvent(YES.(save := FailedOld)))
            == Restarted(RollingBack(Done(RollbackFailed)))
    ensures Apply(Restarted(RollingBack(Done(RollbackFailed))), UpdateEvent(YES)) == LostManager()
  {
    hide PendingState, RolledBackState, Lower;
  }

  lemma CandidateFailsStep()
    ensures Apply(Switching(), UpdateEvent(NO)) == Emptied(StopCandidate)
    ensures Apply(Emptied(StopCandidate), UpdateEvent(YES)) == Emptied(StartPrevious)
    ensures Apply(Emptied(StartPrevious), UpdateEvent(YES)) == Restarted(RollingBack(PreviousHealth))
  {
    hide Save, PendingState, RolledBackState, Lower;
  }

  lemma CalmUpdate(f: Faults, s: Sys)
    ensures Allowed(f, s, UpdateEvent(YES)) && Allowed(f, s, UpdateEvent(NO))
    ensures Allowed(f, s, UpdateEvent(YES.(save := FailedOld)))
  {}

  lemma RestartedToLostManager(f: Faults, h: Harm)
    requires Can(f, h, LostManager())
    ensures Can(f, h, Restarted(RollingBack(PreviousHealth)))
  {
    hide *;
    LeftoverStep();
    RollbackSaveStep();
    var s0 := Restarted(RollingBack(PreviousHealth));
    var s1 := Restarted(RollingBack(StopLeftover(true)));
    var s2 := Restarted(RollingBack(SaveRolledBack(RolledBack)));
    var s3 := Restarted(RollingBack(Done(RollbackFailed)));
    forall s ensures Allowed(f, s, UpdateEvent(YES)) && Allowed(f, s, UpdateEvent(YES.(save := FailedOld))) {
      CalmUpdate(f, s);
    }
    CanBefore(f, h, s3, UpdateEvent(YES), LostManager());
    CanBefore(f, h, s2, UpdateEvent(YES.(save := FailedOld)), s3);
    CanBefore(f, h, s1, UpdateEvent(YES), s2);
    CanBefore(f, h, s0, UpdateEvent(YES), s1);
  }

  lemma StartToLostManager(f: Faults, h: Harm)
    requires Can(f, h, LostManager())
    ensures Can(f, h, FirstStart())
  {
    hide *;
    CandidateFailsStep();
    RestartedToLostManager(f, h);
    forall s ensures Allowed(f, s, UpdateEvent(YES)) && Allowed(f, s, UpdateEvent(NO)) { CalmUpdate(f, s); }
    CanBefore(f, h, Emptied(StartPrevious), UpdateEvent(YES), Restarted(RollingBack(PreviousHealth)));
    CanBefore(f, h, Emptied(StopCandidate), UpdateEvent(YES), Emptied(StartPrevious));
    CanBefore(f, h, Switching(), UpdateEvent(NO), Emptied(StopCandidate));
    StartToSwitching(f, h);
  }
}
