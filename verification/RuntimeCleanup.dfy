/** Which version directories an update and a cleanup may touch. */
module RuntimeCleanup {
  import opened Texts
  import opened Versions
  import opened VersionOrder
  import opened UpdateManifest
  import opened RuntimeModel
  import opened RuntimeInvariant

  // ---- a verified version has a directory -------------------------------------------------

  predicate GoodPresent(d: Disk) { forall v | v in d.good :: Lower(v) in d.present }

  lemma {:induction false} CleanedPresent(d: Disk, keep: seq<string>, names: seq<string>, removals: nat)
    requires GoodPresent(d)
    ensures GoodPresent(Cleaned(d, keep, names, removals))
    decreases |names|
  {
    hide Lower, Kept;
    if names != [] {
      CleanedPresent(d, keep, names[1..], removals);
      if removals > 0 { CleanedPresent(Without(d, names[0]), keep, names[1..], removals - 1); }
    }
  }

  lemma UpdatePresent(s: Sys, o: Outcome)
    requires s.app.Updating? && GoodPresent(s.disk)
    ensures GoodPresent(UpdateStep(s, o).disk)
  {
    hide Lower, PendingState, AbandonedState, CommittedState, RolledBackState, StopLast;
  }

  lemma StepPresent(s: Sys, e: Event)
    requires GoodPresent(s.disk)
    ensures GoodPresent(Apply(s, e).disk)
  {
    hide Newer, Lower, UpdateStep, KeepSet, StopLast, Cleaned;
    match e
    case UpdateEvent(o) => if s.app.Updating? { UpdatePresent(s, o); }
    case CleanupEvent(names, removals, seen) =>
      if KeepSet(s, seen).Some? { CleanedPresent(s.disk, KeepSet(s, seen).value, names, removals); }
    case _ =>
  }

  lemma {:induction false} RunPresent(s: Sys, events: seq<Event>)
    requires GoodPresent(s.disk)
    ensures GoodPresent(Run(s, events).disk)
    decreases |events|
  {
    hide Apply, GoodPresent;
    if events != [] {
      RunPresent(s, events[..|events| - 1]);
      StepPresent(Run(s, events[..|events| - 1]), events[|events| - 1]);
    }
  }

  // ---- an update touches the candidate's directory only -----------------------------

  /** The candidate is neither the current version nor the fallback, by the order of versions. */
  lemma CandidateIsNew(s0: Sys, events: seq<Event>)
    requires Start(s0) && RecordOk(s0.disk.record) && Run(s0, events).app.Updating?
    ensures var u := Run(s0, events).app.update;
            u.candidate != u.stored.current && u.candidate != u.stored.previousKnownGood
  {
    hide Newer, Run;
    RunKeeps(s0, events);
    RunOrdered(s0, events);
    var u := Run(s0, events).app.update;
    NewerIsNewText(u.candidate, u.stored.current);
    if u.stored.previousKnownGood != "" { NewerIrreflexive(u.stored.current, u.stored.previousKnownGood); }
  }

  lemma NewerIsNewText(a: string, b: string)
    requires Newer(a, b)
    ensures a != b && a != ""
  {
    NewerIrreflexive(a, b);
  }

  /** From the start of an update on, the launcher stays in it until the last event at most, and no
      files are damaged from outside. */
  predicate Within(s: Sys, steps: seq<Event>) {
    forall i | 0 <= i < |steps| :: Run(s, steps[..i]).app.Updating? && !steps[i].FilesDamaged?
  }

  /** The update has taken a step of its own, so it is past the removal. */
  predicate Stepped(steps: seq<Event>) { exists i | 0 <= i < |steps| :: steps[i].UpdateEvent? }

  lemma SteppedSnoc(steps: seq<Event>)
    requires steps != []
    ensures Stepped(steps) <==> Stepped(steps[..|steps| - 1]) || steps[|steps| - 1].UpdateEvent?
  {
    var front := steps[..|steps| - 1];
    assert forall i | 0 <= i < |front| :: front[i] == steps[i];
    if Stepped(front) {
      var i :| 0 <= i < |front| && front[i].UpdateEvent?;
      assert steps[i].UpdateEvent?;
    }
  }

  /** Where the update of `c` stands after some steps, and whether `version` verifies there. */
  predicate Standing(s: Sys, t: Sys, c: string, version: string, stepped: bool) {
    && (Verifies(t.disk, version) <==> Verifies(s.disk, version) && (stepped ==> Lower(version) != Lower(c)))
    && (t.app.Updating? ==> t.app.update.candidate == c)
    && (t.app.Updating? && !stepped ==> t.app.at.RemoveOld? && GoodPresent(t.disk))
  }

  lemma UpdateStanding(s: Sys, t: Sys, c: string, version: string, stepped: bool, o: Outcome)
    requires Standing(s, t, c, version, stepped) && t.app.Updating? && version != c
    ensures Standing(s, UpdateStep(t, o), c, version, true)
  {
    hide Lower, PendingState, AbandonedState, CommittedState, RolledBackState, StopLast;
  }

  lemma OtherStanding(s: Sys, t: Sys, c: string, version: string, stepped: bool, e: Event)
    requires Standing(s, t, c, version, stepped) && t.app.Updating? && !e.UpdateEvent? && !e.FilesDamaged?
    ensures Standing(s, Apply(t, e), c, version, stepped)
  {
    hide Lower, Newer, StopLast, Cleaned;
  }

  lemma {:induction false} StandingAfter(s: Sys, steps: seq<Event>, version: string)
    requires s.app.Updating? && s.app.at.RemoveOld? && GoodPresent(s.disk)
    requires version != s.app.update.candidate && Within(s, steps)
    ensures Standing(s, Run(s, steps), s.app.update.candidate, version, Stepped(steps))
    decreases |steps|
  {
    hide Apply, UpdateStep, Stepped, Lower;
    if steps == [] {
      assert !Stepped([]) by { NothingStepped(); }
    } else {
      var n, c := |steps| - 1, s.app.update.candidate;
      var front, e := steps[..n], steps[n];
      assert forall i | 0 <= i < n :: front[..i] == steps[..i] && front[i] == steps[i];
      StandingAfter(s, front, version);
      SteppedSnoc(steps);
      if e.UpdateEvent? {
        UpdateStanding(s, Run(s, front), c, version, Stepped(front), e.o);
        AppliedUpdate(Run(s, front), e);
      } else {
        OtherStanding(s, Run(s, front), c, version, Stepped(front), e);
      }
    }
  }

  lemma NothingStepped()
    ensures !Stepped([])
  {}

  /** Over every run: from its first step to its end and beyond the crash that ends it, an update
      keeps the current runtime and the fallback verified exactly when neither folds to the
      candidate's name. */
  lemma UpdateKeepsExactly(s0: Sys, before: seq<Event>, steps: seq<Event>)
    requires Start(s0) && RecordOk(s0.disk.record) && GoodPresent(s0.disk)
    requires Run(s0, before).app.Updating? && Run(s0, before).app.at.RemoveOld?
    requires Within(Run(s0, before), steps) && Stepped(steps)
    ensures var s, t := Run(s0, before), Run(s0, before + steps);
            var u := s.app.update;
            && (Verifies(t.disk, u.stored.current) <==>
                Verifies(s.disk, u.stored.current) && Lower(u.stored.current) != Lower(u.candidate))
            && (Verifies(t.disk, u.stored.previousKnownGood) <==>
                Verifies(s.disk, u.stored.previousKnownGood) && Lower(u.stored.previousKnownGood) != Lower(u.candidate))
  {
    hide Run, Lower, Within, Stepped, Verifies, RecordOk, GoodPresent;
    var u := Run(s0, before).app.update;
    CandidateIsNew(s0, before);
    RunPresent(s0, before);
    RunConcat(s0, before, steps);
    StandingAfter(Run(s0, before), steps, u.stored.current);
    StandingAfter(Run(s0, before), steps, u.stored.previousKnownGood);
  }

  /** The order of versions alone does not separate directories: these two texts are ordered
      and name the same directory. */
  lemma FoldedAlias()
    ensures Newer(LATER, SHOUTED) && Lower(LATER) == Lower(SHOUTED) && LATER != SHOUTED && SHOUTED != "1"
  {
    hide Parsed, Compare, CompareIdentifier, Lower;
    PreParses("rc");
    PreParses("RC");
    SingleIdentifier("rc", "RC");
    LettersOrdered();
    LettersFold();
    NewerIsNewText(LATER, SHOUTED);
    assert |SHOUTED| == 4;
  }

  const LATER: string := PreText("rc")
  const SHOUTED: string := PreText("RC")

  /** A launcher that has been started with the installed version `SHOUTED`. */
  function Shouting(app: App): Sys {
    Sys("1", Disk(Record(Stored(SHOUTED, "", "", "", "", "")), {Lower(SHOUTED)}, {SHOUTED}), Engines([], false), app)
  }

  /** The same after the removal of the old directory of `LATER`. */
  function Lost(app: App): Sys {
    Sys("1", Disk(Record(Stored(SHOUTED, "", "", "", "", "")), {}, {}), Engines([], false), app)
  }

  /** Its startup, and an update to `LATER` up to the removal of the old directory of that name. */
  const ALIAS_RUN: seq<Event> :=
    [Launch(true), BootEvent(YES), BootEvent(YES), BootEvent(YES), BeginEvent(LATER, "", "", true), UpdateEvent(YES)]

  const NEXT_START: seq<Event> := [Crash, Launch(true), BootEvent(YES), BootEvent(YES)]

  /** Without a crash, a fault or damage, that update takes the current runtime away; and if the
      launcher ends then, its next start is refused. */
  lemma AliasLosesCurrent()
    ensures Start(Shouting(Down)) && RecordOk(Shouting(Down).disk.record) && GoodPresent(Shouting(Down).disk)
    ensures Verifies(Shouting(Down).disk, SHOUTED)
    ensures var t := Run(Shouting(Down), ALIAS_RUN);
            t.app.Updating? && CurrentVersion(t) == SHOUTED && !Verifies(t.disk, SHOUTED)
    ensures Run(Shouting(Down), ALIAS_RUN + NEXT_START).app == Refused(NoFallback)
  {
    hide Run;
    AliasUpdate();
    AliasStart();
    RunConcat(Shouting(Down), ALIAS_RUN, NEXT_START);
  }

  function Removing(): Update {
    Update(Stored(SHOUTED, "", "", "", "", ""), LATER, "", "", false, false, false, false, false)
  }

  lemma AliasUpdate()
    ensures Run(Shouting(Down), ALIAS_RUN) == Lost(Updating(Extract, Removing(), SHOUTED, false))
  {
    hide Lower, Newer, PreText;
    FoldedAlias();
    var r := Record(Stored(SHOUTED, "", "", "", "", ""));
    var s0, s4 := Shouting(Down), Shouting(Ready(SHOUTED, false));
    var s1, s2 := Shouting(Boot(Loaded, r, SHOUTED)), Shouting(Boot(CheckCurrent, r, SHOUTED));
    var s3 := Shouting(Boot(FinalCheck, r, SHOUTED));
    var s5 := Shouting(Updating(RemoveOld, Removing(), SHOUTED, false));
    assert Apply(s0, Launch(true)) == s1 && Apply(s1, BootEvent(YES)) == s2 && Apply(s2, BootEvent(YES)) == s3;
    assert Apply(s3, BootEvent(YES)) == s4 && Apply(s4, BeginEvent(LATER, "", "", true)) == s5;
    assert Apply(s5, UpdateEvent(YES)) == Lost(Updating(Extract, Removing(), SHOUTED, false)) by {
      assert Elsewhere({SHOUTED}, LATER) == {};
    }
    RunOfSix(s0, ALIAS_RUN);
  }

  lemma RunOfSix(s: Sys, es: seq<Event>)
    requires |es| == 6
    ensures Run(s, es) == Apply(Apply(Apply(Apply(Apply(Apply(s, es[0]), es[1]), es[2]), es[3]), es[4]), es[5])
  {
    hide Apply;
    RunOfFour(s, es[..4]);
    assert es[..5][..4] == es[..4];
    assert Run(s, es[..5]) == Apply(Run(s, es[..4]), es[4]);
  }

  lemma RunOfFour(s: Sys, es: seq<Event>)
    requires |es| == 4
    ensures Run(s, es) == Apply(Apply(Apply(Apply(s, es[0]), es[1]), es[2]), es[3])
  {
    hide Apply;
    assert es[..3][..2] == es[..2] && es[..2][..1] == es[..1] && es[..1][..0] == [];
    assert Run(s, es[..1]) == Apply(s, es[0]);
    assert Run(s, es[..2]) == Apply(Run(s, es[..1]), es[1]);
    assert Run(s, es[..3]) == Apply(Run(s, es[..2]), es[2]);
  }

  lemma AliasStart()
    ensures Run(Lost(Updating(Extract, Removing(), SHOUTED, false)), NEXT_START) == Lost(Refused(NoFallback))
  {
    hide Lower, Newer, PreText;
    FoldedAlias();
    var r := Record(Stored(SHOUTED, "", "", "", "", ""));
    var s0, s1 := Lost(Updating(Extract, Removing(), SHOUTED, false)), Lost(Down);
    var s2, s3 := Lost(Boot(Loaded, r, SHOUTED)), Lost(Boot(CheckCurrent, r, SHOUTED));
    assert Apply(s0, Crash) == s1 && Apply(s1, Launch(true)) == s2 && Apply(s2, BootEvent(YES)) == s3;
    assert Apply(s3, BootEvent(YES)) == Lost(Refused(NoFallback));
    RunOfFour(s0, NEXT_START);
  }

  lemma LettersFold()
    ensures Lower(PreText("rc")) == Lower(PreText("RC"))
  {
    var a, b := Lower("1-rc"), Lower("1-RC");
    assert forall i | 0 <= i < 4 :: a[i] == b[i];
  }

  lemma LettersOrdered()
    ensures CompareIdentifier("rc", "RC") == 1
  {
    assert !IsNumeric("rc") && !IsNumeric("RC");
    assert CompareText("rc", "RC") == 1;
  }

  // ---- a cleanup keeps what a later startup looks at --------------------------------------

  lemma {:induction false} NonEmptyKeeps(versions: seq<string>, i: nat)
    requires i < |versions| && versions[i] != ""
    ensures versions[i] in NonEmpty(versions)
    decreases |versions|
  {
    if i > 0 { NonEmptyKeeps(versions[1..], i - 1); }
  }

  lemma {:induction false} NonEmptyFrom(versions: seq<string>, v: string)
    requires v in NonEmpty(versions)
    ensures v in versions && v != ""
    decreases |versions|
  {
    if versions[0] == "" || v != versions[0] { NonEmptyFrom(versions[1..], v); }
  }

  /** Whatever the listing and wherever a removal fails, a kept version verifies as before. */
  lemma {:induction false} CleanedKeeps(d: Disk, keep: seq<string>, names: seq<string>, removals: nat, version: string)
    requires version in keep || (version == "" && forall i | 0 <= i < |names| :: names[i] != "")
    ensures Verifies(Cleaned(d, keep, names, removals), version) <==> Verifies(d, version)
    decreases |names|
  {
    hide Lower;
    if names != [] {
      if SameImage(names[0], version) {
        assert Kept(keep, names[0]);
        LowerEmpty(names[0]);
        CleanedKeeps(d, keep, names[1..], removals, version);
      } else {
        CleanedKeeps(d, keep, names[1..], removals, version);
        if removals > 0 { CleanedKeeps(Without(d, names[0]), keep, names[1..], removals - 1, version); }
      }
    }
  }

  lemma LowerEmpty(name: string)
    ensures Lower(name) == Lower("") <==> name == ""
  {}

  /** A version whose directory is not kept and is listed before any failure is gone. */
  lemma {:induction false} CleanedRemoves(d: Disk, keep: seq<string>, names: seq<string>, version: string)
    requires version in names && !Kept(keep, version)
    ensures Lower(version) !in Cleaned(d, keep, names, |names|).present
    decreases |names|
  {
    hide Lower;
    CleanedRemovesAtLeast(d, keep, names, |names|, version);
  }

  lemma {:induction false} CleanedShrinks(d: Disk, keep: seq<string>, names: seq<string>, removals: nat)
    ensures Cleaned(d, keep, names, removals).present <= d.present
    decreases |names|
  {
    hide Lower, Kept;
    if names != [] {
      CleanedShrinks(d, keep, names[1..], removals);
      if removals > 0 { CleanedShrinks(Without(d, names[0]), keep, names[1..], removals - 1); }
    }
  }

  lemma {:induction false} CleanedRemovesAtLeast(d: Disk, keep: seq<string>, names: seq<string>, removals: nat,
                                                version: string)
    requires version in names && !Kept(keep, version) && removals >= |names|
    ensures Lower(version) !in Cleaned(d, keep, names, removals).present
    decreases |names|
  {
    hide Lower, Kept;
    if names[0] == version {
      CleanedShrinks(Without(d, version), keep, names[1..], removals - 1);
    } else if Kept(keep, names[0]) {
      CleanedRemovesAtLeast(d, keep, names[1..], removals, version);
    } else {
      CleanedRemovesAtLeast(Without(d, names[0]), keep, names[1..], removals - 1, version);
    }
  }

  /** The versions a startup may look at. */
  predicate Relevant(s: Sys, version: string) {
    || version == s.embedded || version == ""
    || (s.disk.record.Record? && (version == s.disk.record.state.current || version == s.disk.record.state.previousKnownGood))
    || (s.app.Boot? && version == s.app.choice)
    || (s.app.Boot? && s.app.loaded.Record?
        && (version == s.app.loaded.state.current || version == s.app.loaded.state.previousKnownGood))
  }

  /** Two states that no startup can tell apart. */
  ghost predicate Alike(s: Sys, t: Sys) {
    && s.embedded == t.embedded && s.disk.record == t.disk.record && s.engines == t.engines && s.app == t.app
    && forall version | Relevant(s, version) :: Verifies(s.disk, version) <==> Verifies(t.disk, version)
  }

  predicate StartupEvent(e: Event) { e.Crash? || e.EngineExits? || e.Launch? || e.BootEvent? || e.FilesDamaged? }

  /** A step that looks at no new version, and changes what verifies in the same way. */
  lemma AlikeAfter(s: Sys, t: Sys, s': Sys, t': Sys)
    requires Alike(s, t)
    requires s'.embedded == s.embedded && s'.embedded == t'.embedded && s'.disk.record == t'.disk.record
    requires s'.engines == t'.engines && s'.app == t'.app
    requires forall version | Relevant(s', version) :: Relevant(s, version)
    requires forall version | Verifies(s.disk, version) == Verifies(t.disk, version) ::
               Verifies(s'.disk, version) == Verifies(t'.disk, version)
    ensures Alike(s', t')
  {
    hide Verifies, Relevant;
    forall version | Relevant(s', version) ensures Verifies(s'.disk, version) <==> Verifies(t'.disk, version) {
      assert Relevant(s, version);
    }
  }

  predicate UntilCheck(at: BootAt) { at.Loaded? || at.StopPending? || at.ClearPending? || at.CheckCurrent? }

  lemma EarlyBootAlike(s: Sys, t: Sys, o: Outcome)
    requires Alike(s, t) && s.app.Boot? && UntilCheck(s.app.boot)
    ensures Alike(BootStep(s, s.app.boot, s.app.loaded, s.app.choice, o),
                  BootStep(t, t.app.boot, t.app.loaded, t.app.choice, o))
  {
    hide Lower, StopLast;
    assert Relevant(s, s.app.choice);
    AlikeAfter(s, t, BootStep(s, s.app.boot, s.app.loaded, s.app.choice, o),
               BootStep(t, t.app.boot, t.app.loaded, t.app.choice, o));
  }

  lemma FallbackAlike(s: Sys, t: Sys, o: Outcome)
    requires Alike(s, t) && s.app.Boot? && (s.app.boot.CheckFallback? || s.app.boot.Reconcile?)
    ensures Alike(BootStep(s, s.app.boot, s.app.loaded, s.app.choice, o),
                  BootStep(t, t.app.boot, t.app.loaded, t.app.choice, o))
  {
    hide Lower, StopLast;
    if s.app.loaded.Record? { assert Relevant(s, s.app.loaded.state.previousKnownGood); }
    AlikeAfter(s, t, BootStep(s, s.app.boot, s.app.loaded, s.app.choice, o),
               BootStep(t, t.app.boot, t.app.loaded, t.app.choice, o));
  }

  lemma LateBootAlike(s: Sys, t: Sys, o: Outcome)
    requires Alike(s, t) && s.app.Boot? && (s.app.boot.SaveFallback? || s.app.boot.FinalCheck?)
    ensures Alike(BootStep(s, s.app.boot, s.app.loaded, s.app.choice, o),
                  BootStep(t, t.app.boot, t.app.loaded, t.app.choice, o))
  {
    hide Lower, StopLast;
    if s.app.loaded.Record? { assert Relevant(s, s.app.loaded.state.previousKnownGood); }
    AlikeAfter(s, t, BootStep(s, s.app.boot, s.app.loaded, s.app.choice, o),
               BootStep(t, t.app.boot, t.app.loaded, t.app.choice, o));
  }

  lemma StepAlike(s: Sys, t: Sys, e: Event)
    requires Alike(s, t) && StartupEvent(e)
    ensures Alike(Apply(s, e), Apply(t, e))
  {
    hide Lower, StopLast, BootStep;
    if e.BootEvent? {
      if s.app.Boot? {
        if UntilCheck(s.app.boot) {
          EarlyBootAlike(s, t, e.o);
        } else if s.app.boot.CheckFallback? || s.app.boot.Reconcile? {
          FallbackAlike(s, t, e.o);
        } else {
          LateBootAlike(s, t, e.o);
        }
      }
    } else {
      AlikeAfter(s, t, Apply(s, e), Apply(t, e));
    }
  }

  lemma {:induction false} RunAlike(s: Sys, t: Sys, events: seq<Event>)
    requires Alike(s, t) && forall i | 0 <= i < |events| :: StartupEvent(events[i])
    ensures Alike(Run(s, events), Run(t, events))
    decreases |events|
  {
    hide Alike, Apply, StartupEvent;
    if events != [] {
      var n := |events| - 1;
      RunAlike(s, t, events[..n]);
      assert StartupEvent(events[n]);
      StepAlike(Run(s, events[..n]), Run(t, events[..n]), events[n]);
    }
  }

  lemma KeepSetHas(s: Sys, seen: bool)
    requires KeepSet(s, seen).Some?
    ensures var r, keep := s.disk.record.state, KeepSet(s, seen).value;
            && s.embedded in keep && s.app.selected in keep && r.current in keep
            && (r.previousKnownGood != "" ==> r.previousKnownGood in keep)
            && (r.pending != "" ==> r.pending in keep)
            && (Running(s) && seen && Live(s) != "" ==> Live(s) in keep)
            && forall v | v in keep :: v == s.embedded || v == s.app.selected || v == r.current
                 || v == r.previousKnownGood || v == r.pending || (Running(s) && seen && v == Live(s))
  {
    hide NonEmpty;
    var r := s.disk.record.state;
    var all := [s.app.selected, s.embedded, if Running(s) && seen then Live(s) else "",
                r.current, r.previousKnownGood, r.pending];
    NonEmptyKeeps(all, 0);
    NonEmptyKeeps(all, 1);
    if all[2] != "" { NonEmptyKeeps(all, 2); }
    NonEmptyKeeps(all, 3);
    if all[4] != "" { NonEmptyKeeps(all, 4); }
    if all[5] != "" { NonEmptyKeeps(all, 5); }
    forall v | v in KeepSet(s, seen).value
      ensures v == s.embedded || v == s.app.selected || v == r.current
              || v == r.previousKnownGood || v == r.pending || (Running(s) && seen && v == Live(s))
    {
      NonEmptyFrom(all, v);
    }
  }

  /** A cleanup of any listing, complete or stopped at any removal, is invisible to recovery:
      whatever startups, crashes, process exits and file damage follow, they end in the same
      record, the same engines and the same decision as without the cleanup. */
  lemma CleanupIsInvisible(s: Sys, names: seq<string>, removals: nat, seen: bool, events: seq<Event>)
    requires forall i | 0 <= i < |names| :: names[i] != ""
    requires forall i | 0 <= i < |events| :: StartupEvent(events[i])
    ensures var plain, cleaned := Run(s, events), Run(Apply(s, CleanupEvent(names, removals, seen)), events);
            plain.app == cleaned.app && plain.disk.record == cleaned.disk.record && plain.engines == cleaned.engines
  {
    hide Run, Cleaned, Verifies, NonEmpty;
    var t := Apply(s, CleanupEvent(names, removals, seen));
    if KeepSet(s, seen).Some? {
      var keep := KeepSet(s, seen).value;
      KeepSetHas(s, seen);
      CleanedKeepsRecord(s.disk, keep, names, removals);
      forall version | Relevant(s, version) ensures Verifies(s.disk, version) <==> Verifies(t.disk, version) {
        CleanedKeeps(s.disk, keep, names, removals, version);
      }
    }
    RunAlike(s, t, events);
  }
}
