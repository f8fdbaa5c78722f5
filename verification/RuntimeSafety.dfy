/** What may become current, what an update's answer means, and what a successful startup leaves. */
module RuntimeSafety {
  import opened Texts
  import opened UpdateManifest
  import opened RuntimeModel
  import opened RuntimeInvariant

  // ---- at every point of every run ----------------------------------------------------

  /** What the answer of `ApplyPayload` says about the record in effect, also when saves report a
      failure after taking effect: Applied is a complete commit, and any answer but Applied and
      RollbackFailed leaves the version it started from current. */
  lemma AnswerMeans(s0: Sys, events: seq<Event>)
    requires Start(s0)
    ensures var s := Run(s0, events);
            s.app.Updating? && s.app.at.Done? ==>
              var u, status := s.app.update, s.app.at.status;
              && (status == Applied ==>
                    s.disk.record.Record? && s.disk.record.state.current == u.candidate
                    && s.disk.record.state.previousKnownGood == u.stored.current
                    && s.disk.record.state.pending == "")
              && (status != Applied && status != RollbackFailed ==> CurrentVersion(s) == u.stored.current)
              && (status == RolledBack || status == StopRejected ==> NothingPending(s.disk.record))
  {
    hide Run, Newer;
    RunKeeps(s0, events);
  }

  /** Whether the launch that began the present startup could read the state to select a version. */
  predicate LastRead(s0: Sys, events: seq<Event>)
    decreases |events|
  {
    events == [] ||
    var front, e := events[..|events| - 1], events[|events| - 1];
    if e.Launch? && (Run(s0, front).app.Down? || Run(s0, front).app.Refused?) then e.read else LastRead(s0, front)
  }

  lemma ReadKept(s0: Sys, events: seq<Event>, e: Event)
    requires !e.Launch?
    ensures LastRead(s0, events + [e]) == LastRead(s0, events)
  {
    hide Run;
    assert (events + [e])[..|events|] == events;
  }

  /** What a startup selects, at every step of it. */
  predicate ChosenBy(s: Sys, read: bool) {
    s.app.Boot? ==> s.app.choice == if read then CurrentVersion(s) else s.embedded
  }

  lemma BootChoice(s: Sys, o: Outcome, read: bool)
    requires Inv(s) && s.app.Boot? && ChosenBy(s, read)
    ensures ChosenBy(BootStep(s, s.app.boot, s.app.loaded, s.app.choice, o), read)
  {
    hide Newer, Lower, StopLast;
  }

  lemma StepChoice(s: Sys, e: Event, read: bool)
    requires Inv(s) && ChosenBy(s, read)
    ensures ChosenBy(Apply(s, e), if e.Launch? && (s.app.Down? || s.app.Refused?) then e.read else read)
  {
    hide Inv, Newer, Lower, BootStep, UpdateStep, KeepSet;
    if e.BootEvent? && s.app.Boot? { BootChoice(s, e.o, read); }
    if e.UpdateEvent? && s.app.Updating? { UpdateNeverBoots(s, e.o); }
    if e.CleanupEvent? && KeepSet(s, e.seen).Some? {
      CleanedKeepsRecord(s.disk, KeepSet(s, e.seen).value, e.names, e.removals);
    }
  }

  lemma StartChoice(s0: Sys)
    requires Start(s0)
    ensures ChosenBy(Run(s0, []), LastRead(s0, []))
  {}

  /** A startup selects the current version if it could read the state, and the embedded one if not. */
  lemma {:induction false} RunChoice(s0: Sys, events: seq<Event>)
    requires Start(s0)
    ensures ChosenBy(Run(s0, events), LastRead(s0, events))
    decreases |events|
  {
    hide Apply, Inv, ChosenBy;
    if events == [] {
      StartChoice(s0);
    } else {
      var front, e := events[..|events| - 1], events[|events| - 1];
      RunChoice(s0, front);
      RunKeeps(s0, front);
      StepChoice(Run(s0, front), e, LastRead(s0, front));
    }
  }

  /** A startup that succeeds ends with nothing pending and the current version selected; if its
      first read of the state failed, the embedded version is selected instead.  An engine that its
      manager holds and sees has the image of the selected version. */
  lemma StartupMeans(s0: Sys, events: seq<Event>, e: Event)
    requires Start(s0) && Run(s0, events).app.Boot? && Apply(Run(s0, events), e).app.Ready?
    ensures var s := Apply(Run(s0, events), e);
            && NothingPending(s.disk.record)
            && s.app.selected == (if LastRead(s0, events) then CurrentVersion(s) else s.embedded)
            && e.BootEvent? && (s.app.managed ==> Running(s))
            && (s.app.managed && e.o.again ==> SameImage(Live(s), s.app.selected))
  {
    hide Run, Newer;
    RunKeeps(s0, events);
    RunChoice(s0, events);
  }

  // ---- nothing but a commit makes a version current ---------------------------------------

  /** Event `j` verified the files of candidate `c`. */
  predicate VerifiedAt(s0: Sys, events: seq<Event>, j: nat, c: string) {
    j < |events| && events[j].UpdateEvent? && events[j].o.ok
    && var s := Run(s0, events[..j]);
       s.app.Updating? && s.app.at.Verify? && s.app.update.candidate == c && Verifies(s.disk, c)
  }

  /** Event `j` started the engine of candidate `c`. */
  predicate StartedAt(s0: Sys, events: seq<Event>, j: nat, c: string) {
    j < |events| && events[j].UpdateEvent? && events[j].o.ok
    && var s := Run(s0, events[..j]);
       s.app.Updating? && s.app.at.StartCandidate? && s.app.update.candidate == c
  }

  /** Event `j` found the started candidate alive and healthy. */
  predicate HealthyAt(s0: Sys, events: seq<Event>, j: nat, c: string) {
    j < |events| && events[j].UpdateEvent? && events[j].o.ok
    && var s := Run(s0, events[..j]);
       s.app.Updating? && s.app.at.CandidateHealth? && s.app.update.candidate == c && Running(s)
  }

  /** Event `i` saved the commit of candidate `c`. */
  predicate CommittedAt(s0: Sys, events: seq<Event>, i: nat, c: string) {
    i < |events| && events[i].UpdateEvent? && events[i].o.save != FailedOld
    && var s := Run(s0, events[..i]);
       s.app.Updating? && s.app.at.Commit? && s.app.update.candidate == c
  }

  predicate InUpdateOf(s: Sys, c: string) { s.app.Updating? && s.app.update.candidate == c }

  /** The launcher stays in one update of `c` from event `j` up to event `i`: no crash between. */
  predicate OneUpdate(s0: Sys, events: seq<Event>, j: nat, i: nat, c: string) {
    i <= |events| && forall m | j <= m <= i :: InUpdateOf(Run(s0, events[..m]), c)
  }

  /** The files of `c` were verified before point `i` in the same update, and if `running`
      then its engine was started and found healthy, in this order. */
  ghost predicate Earned(s0: Sys, events: seq<Event>, i: nat, c: string, running: bool) {
    exists j | 0 <= j < i :: VerifiedAt(s0, events, j, c) && OneUpdate(s0, events, j, i, c)
      && (running ==> exists k, l | j < k < l < i :: StartedAt(s0, events, k, c) && HealthyAt(s0, events, l, c))
  }

  ghost predicate StartedAfterVerified(s0: Sys, events: seq<Event>, i: nat, c: string) {
    exists j, k | 0 <= j < k < i :: VerifiedAt(s0, events, j, c) && OneUpdate(s0, events, j, i, c)
      && StartedAt(s0, events, k, c)
  }

  /** What the flags of a running update stand for. */
  ghost predicate FlagsEarned(s0: Sys, events: seq<Event>) {
    var s := Run(s0, events);
    s.app.Updating? ==>
      var u, n := s.app.update, |events|;
      && (u.verified ==> Earned(s0, events, n, u.candidate, false))
      && (u.started ==> StartedAfterVerified(s0, events, n, u.candidate))
      && (u.healthy ==> Earned(s0, events, n, u.candidate, true))
  }

  // ---- prefixes of a run --------------------------------------------------------------------

  lemma RunSnoc(s0: Sys, events: seq<Event>, e: Event)
    ensures Run(s0, events + [e]) == Apply(Run(s0, events), e)
  {
    assert (events + [e])[..|events|] == events;
  }

  lemma PrefixOf(events: seq<Event>, e: Event, m: nat)
    requires m <= |events|
    ensures (events + [e])[..m] == events[..m]
  {}

  lemma WholePrefix(events: seq<Event>)
    ensures events[..|events|] == events
  {}

  lemma MilestonesGrow(s0: Sys, events: seq<Event>, e: Event, j: nat, c: string)
    requires j < |events|
    ensures VerifiedAt(s0, events, j, c) ==> VerifiedAt(s0, events + [e], j, c)
    ensures StartedAt(s0, events, j, c) ==> StartedAt(s0, events + [e], j, c)
    ensures HealthyAt(s0, events, j, c) ==> HealthyAt(s0, events + [e], j, c)
    ensures CommittedAt(s0, events, j, c) ==> CommittedAt(s0, events + [e], j, c)
  {
    hide Run;
    PrefixOf(events, e, j);
  }

  lemma OneUpdateGrows(s0: Sys, events: seq<Event>, e: Event, j: nat, i: nat, c: string)
    requires OneUpdate(s0, events, j, i, c)
    ensures OneUpdate(s0, events + [e], j, i, c)
  {
    hide Run, InUpdateOf;
    forall m | j <= m <= i ensures InUpdateOf(Run(s0, (events + [e])[..m]), c) {
      PrefixOf(events, e, m);
    }
  }

  lemma OneUpdateExtends(s0: Sys, events: seq<Event>, e: Event, j: nat, c: string)
    requires OneUpdate(s0, events, j, |events|, c) && InUpdateOf(Run(s0, events + [e]), c)
    ensures OneUpdate(s0, events + [e], j, |events| + 1, c)
  {
    hide Run, InUpdateOf;
    OneUpdateGrows(s0, events, e, j, |events|, c);
    WholePrefix(events + [e]);
  }

  /** Milestones reached before point `i` stay reached when the run goes on. */
  lemma EarnedGrows(s0: Sys, events: seq<Event>, e: Event, i: nat, c: string, running: bool)
    requires Earned(s0, events, i, c, running) && i <= |events|
    ensures Earned(s0, events + [e], i, c, running)
  {
    hide VerifiedAt, StartedAt, HealthyAt, OneUpdate;
    var j :| 0 <= j < i && VerifiedAt(s0, events, j, c) && OneUpdate(s0, events, j, i, c)
      && (running ==> exists k, l | j < k < l < i :: StartedAt(s0, events, k, c) && HealthyAt(s0, events, l, c));
    MilestonesGrow(s0, events, e, j, c);
    OneUpdateGrows(s0, events, e, j, i, c);
    if running {
      var k, l :| j < k < l < i && StartedAt(s0, events, k, c) && HealthyAt(s0, events, l, c);
      MilestonesGrow(s0, events, e, k, c);
      MilestonesGrow(s0, events, e, l, c);
    }
  }

  /** ... and still count while the same update goes on. */
  lemma EarnedExtends(s0: Sys, events: seq<Event>, e: Event, c: string, running: bool)
    requires Earned(s0, events, |events|, c, running) && InUpdateOf(Run(s0, events + [e]), c)
    ensures Earned(s0, events + [e], |events| + 1, c, running)
  {
    hide VerifiedAt, StartedAt, HealthyAt, OneUpdate, InUpdateOf, Run;
    var i := |events|;
    var j :| 0 <= j < i && VerifiedAt(s0, events, j, c) && OneUpdate(s0, events, j, i, c)
      && (running ==> exists k, l | j < k < l < i :: StartedAt(s0, events, k, c) && HealthyAt(s0, events, l, c));
    MilestonesGrow(s0, events, e, j, c);
    OneUpdateExtends(s0, events, e, j, c);
    if running {
      var k, l :| j < k < l < i && StartedAt(s0, events, k, c) && HealthyAt(s0, events, l, c);
      MilestonesGrow(s0, events, e, k, c);
      MilestonesGrow(s0, events, e, l, c);
    }
  }

  lemma StartedExtends(s0: Sys, events: seq<Event>, e: Event, c: string)
    requires StartedAfterVerified(s0, events, |events|, c) && InUpdateOf(Run(s0, events + [e]), c)
    ensures StartedAfterVerified(s0, events + [e], |events| + 1, c)
  {
    hide VerifiedAt, StartedAt, OneUpdate, InUpdateOf, Run;
    var i := |events|;
    var j, k :| 0 <= j < k < i && VerifiedAt(s0, events, j, c) && OneUpdate(s0, events, j, i, c)
      && StartedAt(s0, events, k, c);
    MilestonesGrow(s0, events, e, j, c);
    MilestonesGrow(s0, events, e, k, c);
    OneUpdateExtends(s0, events, e, j, c);
  }

  // ---- the flags of an update stand for milestones -------------------------------------------

  predicate VerifyNow(s: Sys, e: Event) {
    s.app.Updating? && s.app.at.Verify? && e.UpdateEvent? && e.o.ok && Verifies(s.disk, s.app.update.candidate)
  }

  predicate StartNow(s: Sys, e: Event) {
    s.app.Updating? && s.app.at.StartCandidate? && e.UpdateEvent? && e.o.ok && s.app.update.verified
  }

  predicate HealthNow(s: Sys, e: Event) {
    s.app.Updating? && s.app.at.CandidateHealth? && e.UpdateEvent? && e.o.ok && Running(s) && s.app.update.started
  }

  /** A step inside an update keeps its candidate, and sets a flag only by the step that earns it. */
  predicate FlagsFrom(s: Sys, e: Event, u: Update, u': Update) {
    && u'.candidate == u.candidate && u'.stored == u.stored
    && (u'.verified ==> u.verified || VerifyNow(s, e))
    && (u'.started ==> u.started || StartNow(s, e))
    && (u'.healthy ==> u.healthy || HealthNow(s, e))
  }

  lemma UpdateStepFlags(s: Sys, e: Event)
    requires Inv(s) && s.app.Updating? && e.UpdateEvent? && UpdateStep(s, e.o).app.Updating?
    ensures FlagsFrom(s, e, s.app.update, UpdateStep(s, e.o).app.update)
  {
    hide Newer, Lower, RecordAt, Without, Extracted, Save, StopLast;
    hide PendingState, AbandonedState, CommittedState, RolledBackState;
  }

  lemma FlagsStep(s: Sys, e: Event)
    requires Inv(s) && Apply(s, e).app.Updating?
    ensures if s.app.Updating? then FlagsFrom(s, e, s.app.update, Apply(s, e).app.update)
            else !Apply(s, e).app.update.verified && !Apply(s, e).app.update.started && !Apply(s, e).app.update.healthy
  {
    hide Newer, Inv, UpdateStep, FlagsFrom, KeepSet, Cleaned;
    if e.UpdateEvent? {
      if s.app.Updating? { UpdateStepFlags(s, e); }
    } else if e.BootEvent? && s.app.Boot? {
      BootNeverUpdates(s, e.o);
    } else if s.app.Updating? {
      assert Apply(s, e).app == s.app;
      SameFlags(s, e, s.app.update);
    }
  }

  lemma SameFlags(s: Sys, e: Event, u: Update)
    ensures FlagsFrom(s, e, u, u)
  {}

  lemma BootNeverUpdates(s: Sys, o: Outcome)
    requires s.app.Boot?
    ensures !BootStep(s, s.app.boot, s.app.loaded, s.app.choice, o).app.Updating?
  {
    hide Lower, Save, StopLast;
  }

  lemma VerifiedEarns(s0: Sys, events: seq<Event>, e: Event, c: string)
    requires VerifyNow(Run(s0, events), e) && Run(s0, events).app.update.candidate == c
    requires InUpdateOf(Run(s0, events + [e]), c)
    ensures Earned(s0, events + [e], |events| + 1, c, false)
  {
    hide Run;
    var n := |events|;
    WholePrefix(events);
    PrefixOf(events, e, n);
    WholePrefix(events + [e]);
    assert VerifiedAt(s0, events + [e], n, c);
    assert OneUpdate(s0, events + [e], n, n + 1, c);
  }

  lemma StartEarns(s0: Sys, events: seq<Event>, e: Event, c: string)
    requires StartNow(Run(s0, events), e) && Run(s0, events).app.update.candidate == c
    requires Earned(s0, events, |events|, c, false) && InUpdateOf(Run(s0, events + [e]), c)
    ensures StartedAfterVerified(s0, events + [e], |events| + 1, c)
  {
    hide Run, VerifiedAt, OneUpdate;
    var n := |events|;
    WholePrefix(events);
    PrefixOf(events, e, n);
    assert StartedAt(s0, events + [e], n, c);
    var j :| 0 <= j < n && VerifiedAt(s0, events, j, c) && OneUpdate(s0, events, j, n, c);
    MilestonesGrow(s0, events, e, j, c);
    OneUpdateExtends(s0, events, e, j, c);
  }

  lemma HealthEarns(s0: Sys, events: seq<Event>, e: Event, c: string)
    requires HealthNow(Run(s0, events), e) && Run(s0, events).app.update.candidate == c
    requires StartedAfterVerified(s0, events, |events|, c) && InUpdateOf(Run(s0, events + [e]), c)
    ensures Earned(s0, events + [e], |events| + 1, c, true)
  {
    hide Run, VerifiedAt, OneUpdate, StartedAt;
    var n := |events|;
    WholePrefix(events);
    PrefixOf(events, e, n);
    assert HealthyAt(s0, events + [e], n, c);
    var j, k :| 0 <= j < k < n && VerifiedAt(s0, events, j, c) && OneUpdate(s0, events, j, n, c)
      && StartedAt(s0, events, k, c);
    MilestonesGrow(s0, events, e, j, c);
    MilestonesGrow(s0, events, e, k, c);
    OneUpdateExtends(s0, events, e, j, c);
  }

  lemma FlagsKeep(s0: Sys, events: seq<Event>, e: Event)
    requires Start(s0) && FlagsEarned(s0, events)
    ensures FlagsEarned(s0, events + [e])
  {
    hide Run, Apply, Earned, StartedAfterVerified, VerifyNow, StartNow, HealthNow, Inv;
    RunSnoc(s0, events, e);
    RunKeeps(s0, events);
    var s, s' := Run(s0, events), Run(s0, events + [e]);
    if s'.app.Updating? {
      FlagsStep(s, e);
      if s.app.Updating? { FlagsGo(s0, events, e, s, s'); }
    }
  }

  lemma FlagsGo(s0: Sys, events: seq<Event>, e: Event, s: Sys, s': Sys)
    requires s == Run(s0, events) && s' == Run(s0, events + [e]) && FlagsEarned(s0, events)
    requires s.app.Updating? && s'.app.Updating? && FlagsFrom(s, e, s.app.update, s'.app.update)
    ensures FlagsEarned(s0, events + [e])
  {
    hide Run, Earned, StartedAfterVerified;
    var c := s.app.update.candidate;
    assert StartNow(s, e) ==> s.app.update.verified;
    assert HealthNow(s, e) ==> s.app.update.started;
    if s'.app.update.verified {
      if s.app.update.verified { EarnedExtends(s0, events, e, c, false); } else { VerifiedEarns(s0, events, e, c); }
    }
    if s'.app.update.started {
      if s.app.update.started { StartedExtends(s0, events, e, c); } else { StartEarns(s0, events, e, c); }
    }
    if s'.app.update.healthy {
      if s.app.update.healthy { EarnedExtends(s0, events, e, c, true); } else { HealthEarns(s0, events, e, c); }
    }
  }

  // ---- where versions come from ------------------------------------------------------------------

  /** Event `i` committed `v`, whose files had verified and, if an engine was running, whose
      engine had started and been healthy. */
  ghost predicate EarnedCommit(s0: Sys, events: seq<Event>, i: nat, v: string) {
    CommittedAt(s0, events, i, v) && Earned(s0, events, i, v, Run(s0, events[..i]).app.update.wasRunning)
  }

  /** Where a version may come from: the first record, the embedded runtime, or an earned commit. */
  ghost predicate Known(s0: Sys, events: seq<Event>, v: string) {
    || v == "" || v == s0.embedded
    || (s0.disk.record.Record? && (v == s0.disk.record.state.current || v == s0.disk.record.state.previousKnownGood))
    || exists i: nat :: i < |events| && EarnedCommit(s0, events, i, v)
  }

  ghost predicate StateKnown(s0: Sys, events: seq<Event>, r: Stored) {
    Known(s0, events, r.current) && Known(s0, events, r.previousKnownGood)
  }

  /** Every version the launcher relies on is known; a pending one need not be. */
  ghost predicate AllKnown(s0: Sys, events: seq<Event>, s: Sys) {
    && s.embedded == s0.embedded
    && (s.disk.record.Record? ==> StateKnown(s0, events, s.disk.record.state))
    && (s.app.Boot? && s.app.loaded.Record? ==> StateKnown(s0, events, s.app.loaded.state))
    && (s.app.Updating? ==> StateKnown(s0, events, s.app.update.stored))
  }

  predicate Source(r: Stored, from: Stored) {
    r.current == from.current && r.previousKnownGood == from.previousKnownGood
  }

  predicate CommitNow(s: Sys, e: Event) {
    s.app.Updating? && s.app.at.Commit? && e.UpdateEvent? && e.o.save != FailedOld
  }

  /** Where the versions of a record after one step come from. */
  predicate RecordFrom(s: Sys, e: Event, r: Stored) {
    || (s.disk.record.Record? && Source(r, s.disk.record.state))
    || Source(r, Initial(s.embedded))
    || (s.app.Boot? && s.app.loaded.Record? && Source(r, s.app.loaded.state))
    || (s.app.Boot? && s.app.loaded.Record? && Source(r, FallbackState(s.app.loaded.state)))
    || (s.app.Updating? && Source(r, s.app.update.stored))
    || (CommitNow(s, e) && Source(r, CommittedState(s.app.update)))
  }

  predicate RecordsFrom(s: Sys, e: Event, s': Sys) {
    s'.embedded == s.embedded && (s'.disk.record.Record? ==> RecordFrom(s, e, s'.disk.record.state))
  }

  lemma BootRecords(s: Sys, e: Event)
    requires s.app.Boot? && e.BootEvent?
    ensures RecordsFrom(s, e, BootStep(s, s.app.boot, s.app.loaded, s.app.choice, e.o))
  {
    hide Lower, StopLast;
  }

  lemma UpdateRecords(s: Sys, e: Event)
    requires s.app.Updating? && e.UpdateEvent?
    ensures RecordsFrom(s, e, UpdateStep(s, e.o))
  {
    hide Lower, StopLast, Verifies;
  }

  lemma RecordsComeFrom(s: Sys, e: Event)
    requires Inv(s)
    ensures RecordsFrom(s, e, Apply(s, e))
  {
    hide Newer, Lower, Inv, BootStep, UpdateStep, KeepSet;
    match e
    case BootEvent(_) => if s.app.Boot? { BootRecords(s, e); }
    case UpdateEvent(_) => if s.app.Updating? { UpdateRecords(s, e); }
    case CleanupEvent(names, removals, seen) =>
      if KeepSet(s, seen).Some? { CleanedKeepsRecord(s.disk, KeepSet(s, seen).value, names, removals); }
    case _ =>
  }

  predicate LocalsFrom(s: Sys, s': Sys) {
    && (s'.app.Boot? && s'.app.loaded.Record? ==>
         s.disk.record == s'.app.loaded || (s.app.Boot? && s.app.loaded == s'.app.loaded))
    && (s'.app.Updating? ==>
         || (s.app.Updating? && s'.app.update.stored == s.app.update.stored)
         || (s.disk.record.Record? && s'.app.update.stored == s.disk.record.state)
         || s'.app.update.stored == Initial(s.embedded))
  }

  lemma BootLocals(s: Sys, o: Outcome)
    requires s.app.Boot?
    ensures LocalsFrom(s, BootStep(s, s.app.boot, s.app.loaded, s.app.choice, o))
  {
    hide Lower, Save, StopLast;
  }

  lemma LocalsComeFrom(s: Sys, e: Event)
    requires Inv(s)
    ensures LocalsFrom(s, Apply(s, e))
  {
    hide Newer, Lower, Inv, UpdateStep, BootStep, KeepSet, Cleaned;
    if e.UpdateEvent? && s.app.Updating? {
      if UpdateStep(s, e.o).app.Updating? { UpdateStepFlags(s, e); } else { UpdateNeverBoots(s, e.o); }
    } else if e.BootEvent? && s.app.Boot? {
      BootLocals(s, e.o);
    }
  }

  lemma UpdateNeverBoots(s: Sys, o: Outcome)
    requires s.app.Updating?
    ensures !UpdateStep(s, o).app.Boot?
  {
    hide Lower, Save, StopLast, Without, Extracted;
  }

  lemma KnownGrows(s0: Sys, events: seq<Event>, e: Event, v: string)
    requires Known(s0, events, v)
    ensures Known(s0, events + [e], v)
  {
    hide Run, Earned;
    if i: nat :| i < |events| && EarnedCommit(s0, events, i, v) {
      MilestonesGrow(s0, events, e, i, v);
      EarnedGrows(s0, events, e, i, v, Run(s0, events[..i]).app.update.wasRunning);
      PrefixOf(events, e, i);
      assert EarnedCommit(s0, events + [e], i, v);
    }
  }

  lemma CommitEarned(s0: Sys, events: seq<Event>, e: Event)
    requires Start(s0) && FlagsEarned(s0, events) && CommitNow(Run(s0, events), e)
    ensures EarnedCommit(s0, events + [e], |events|, Run(s0, events).app.update.candidate)
  {
    hide Run, Earned, StartedAfterVerified, Newer, RecordAt, OwnedAt;
    RunKeeps(s0, events);
    var n, u := |events|, Run(s0, events).app.update;
    EarnedGrows(s0, events, e, n, u.candidate, u.wasRunning);
    WholePrefix(events);
    PrefixOf(events, e, n);
  }

  lemma CommitKnown(s0: Sys, events: seq<Event>, e: Event)
    requires Start(s0) && FlagsEarned(s0, events) && CommitNow(Run(s0, events), e)
    ensures Known(s0, events + [e], Run(s0, events).app.update.candidate)
  {
    hide Run, FlagsEarned, CommitNow, EarnedCommit;
    CommitEarned(s0, events, e);
  }

  lemma StateKnownGrows(s0: Sys, events: seq<Event>, e: Event, r: Stored)
    requires StateKnown(s0, events, r)
    ensures StateKnown(s0, events + [e], r)
  {
    KnownGrows(s0, events, e, r.current);
    KnownGrows(s0, events, e, r.previousKnownGood);
  }

  lemma AllKnownGrows(s0: Sys, events: seq<Event>, e: Event, s: Sys)
    requires AllKnown(s0, events, s)
    ensures AllKnown(s0, events + [e], s)
  {
    hide StateKnown;
    if s.disk.record.Record? { StateKnownGrows(s0, events, e, s.disk.record.state); }
    if s.app.Boot? && s.app.loaded.Record? { StateKnownGrows(s0, events, e, s.app.loaded.state); }
    if s.app.Updating? { StateKnownGrows(s0, events, e, s.app.update.stored); }
  }

  /** A step relies on no version that the state before it did not rely on, but for an earned commit. */
  lemma KnownStep(s0: Sys, events: seq<Event>, s: Sys, e: Event, s': Sys)
    requires AllKnown(s0, events, s) && s'.embedded == s.embedded && LocalsFrom(s, s')
    requires s'.disk.record.Record? ==> RecordFrom(s, e, s'.disk.record.state)
    requires CommitNow(s, e) ==> Known(s0, events, s.app.update.candidate)
    ensures AllKnown(s0, events, s')
  {
    hide Known;
    assert Known(s0, events, "") && Known(s0, events, s0.embedded) by { KnownAlways(s0, events); }
  }

  lemma KnownAlways(s0: Sys, events: seq<Event>)
    ensures Known(s0, events, "") && Known(s0, events, s0.embedded)
  {}

  lemma {:induction false} RunKnown(s0: Sys, events: seq<Event>)
    requires Start(s0)
    ensures FlagsEarned(s0, events) && AllKnown(s0, events, Run(s0, events))
    decreases |events|
  {
    hide Run, Apply, Inv, FlagsEarned, RecordFrom, LocalsFrom;
    if events == [] {
      RunOfNothing(s0);
    } else {
      var front, e := events[..|events| - 1], events[|events| - 1];
      assert events == front + [e];
      RunKnown(s0, front);
      FlagsKeep(s0, front, e);
      RunSnoc(s0, front, e);
      RunKeeps(s0, front);
      var s := Run(s0, front);
      AllKnownGrows(s0, front, e, s);
      RecordsComeFrom(s, e);
      LocalsComeFrom(s, e);
      if CommitNow(s, e) { CommitKnown(s0, front, e); }
      KnownStep(s0, events, s, e, Run(s0, events));
    }
  }

  lemma RunOfNothing(s0: Sys)
    requires Start(s0)
    ensures FlagsEarned(s0, []) && AllKnown(s0, [], Run(s0, []))
  {}

  /** The current version is one of the first record, the embedded one, or one once committed. */
  lemma CurrentIsKnown(s0: Sys, events: seq<Event>)
    requires Start(s0)
    ensures Known(s0, events, CurrentVersion(Run(s0, events)))
  {
    RunKnown(s0, events);
    KnownAlways(s0, events);
  }

  // ---- how the current version changes ---------------------------------------------------------

  /** At every commit save, whatever the candidate, its files have verified in the same update and,
      if an engine was running, its engine has started and then been healthy. */
  lemma CommitIsEarned(s0: Sys, events: seq<Event>, e: Event)
    requires Start(s0) && CommitNow(Run(s0, events), e)
    ensures EarnedCommit(s0, events + [e], |events|, Run(s0, events).app.update.candidate)
  {
    hide Run, CommitNow, EarnedCommit, FlagsEarned, AllKnown;
    RunKnown(s0, events);
    CommitEarned(s0, events, e);
  }

  /** The startup saves its fallback as the current version. */
  predicate FallbackNow(s: Sys, e: Event) {
    s.app.Boot? && s.app.boot.SaveFallback? && e.BootEvent? && e.o.save != FailedOld
  }

  /** An update that has failed saves the version it began with. */
  predicate RestoreNow(s: Sys, e: Event) {
    s.app.Updating? && s.app.at.SaveRolledBack? && e.UpdateEvent? && e.o.save != FailedOld
  }

  /** What one event may do to the current version. */
  predicate CurrentFrom(s: Sys, e: Event, t: Sys) {
    || CurrentVersion(t) == CurrentVersion(s)
    || (CommitNow(s, e) && CurrentVersion(t) == s.app.update.candidate)
    || (FallbackNow(s, e) && s.disk.record.Record? && CurrentVersion(t) == s.disk.record.state.previousKnownGood)
    || (RestoreNow(s, e) && CurrentVersion(t) == s.app.update.stored.current)
  }

  lemma BootCurrent(s: Sys, e: Event)
    requires Inv(s) && s.app.Boot? && e.BootEvent?
    ensures CurrentFrom(s, e, BootStep(s, s.app.boot, s.app.loaded, s.app.choice, e.o))
  {
    hide Newer, Lower, StopLast, Elsewhere;
  }

  lemma UpdateCurrent(s: Sys, e: Event)
    requires Inv(s) && s.app.Updating? && e.UpdateEvent?
    ensures CurrentFrom(s, e, UpdateStep(s, e.o))
  {
    hide Newer, Lower, StopLast, Elsewhere, Verifies, OwnedAt, MilestonesAt;
  }

  lemma StepCurrent(s: Sys, e: Event)
    requires Inv(s)
    ensures CurrentFrom(s, e, Apply(s, e))
  {
    hide Newer, Lower, Inv, BootStep, UpdateStep, KeepSet, Elsewhere;
    match e
    case BootEvent(_) => if s.app.Boot? { BootCurrent(s, e); }
    case UpdateEvent(_) => if s.app.Updating? { UpdateCurrent(s, e); }
    case CleanupEvent(names, removals, seen) =>
      if KeepSet(s, seen).Some? { CleanedKeepsRecord(s.disk, KeepSet(s, seen).value, names, removals); }
    case _ =>
  }

  /** Wherever the current version changes in a run, it is an earned commit of the new version, the
      startup's return to the recorded fallback, or the return of a failed update to the version it
      began with. */
  lemma OnlyEarnedCommits(s0: Sys, events: seq<Event>, i: nat)
    requires Start(s0) && i < |events|
    requires CurrentVersion(Run(s0, events[..i + 1])) != CurrentVersion(Run(s0, events[..i]))
    ensures var s, v := Run(s0, events[..i]), CurrentVersion(Run(s0, events[..i + 1]));
            || EarnedCommit(s0, events[..i + 1], i, v)
            || (FallbackNow(s, events[i]) && s.disk.record.Record? && v == s.disk.record.state.previousKnownGood)
            || (RestoreNow(s, events[i]) && v == s.app.update.stored.current)
  {
    hide Run, Apply, Inv, EarnedCommit, CommitNow, FallbackNow, RestoreNow, CurrentVersion;
    var front, e := events[..i], events[i];
    assert events[..i + 1] == front + [e];
    RunSnoc(s0, front, e);
    RunKeeps(s0, front);
    StepCurrent(Run(s0, front), e);
    if CommitNow(Run(s0, front), e) { CommitIsEarned(s0, front, e); }
  }

  /** No event but the commit of the running update makes a pending version current: not a restart,
      not a rollback, not a crash. */
  lemma NeverPromoted(s0: Sys, events: seq<Event>, e: Event)
    requires Start(s0) && RecordOk(s0.disk.record)
    requires var s := Run(s0, events); HasPending(s.disk.record) && !CommitNow(s, e)
    ensures CurrentVersion(Apply(Run(s0, events), e)) != Run(s0, events).disk.record.state.pending
  {
    hide Run, Newer, CommitNow, Apply;
    var s := Run(s0, events);
    RunKeeps(s0, events);
    RunOrdered(s0, events);
    StepCurrent(s, e);
    PendingDiffers(s, e);
  }

  lemma PendingDiffers(s: Sys, e: Event)
    requires Inv(s) && Ordered(s) && HasPending(s.disk.record)
    ensures s.disk.record.state.pending != CurrentVersion(s)
    ensures s.disk.record.state.pending != s.disk.record.state.previousKnownGood
    ensures RestoreNow(s, e) ==> s.disk.record.state.pending != s.app.update.stored.current
  {
    hide Newer;
    var r := s.disk.record.state;
    NewerIrreflexive(r.pending, r.current);
    if r.previousKnownGood != "" { NewerIrreflexive(r.current, r.previousKnownGood); }
    if RestoreNow(s, e) { NewerIrreflexive(s.app.update.candidate, s.app.update.stored.current); }
  }
}
