/** The decision whether a manifest's artifact is an upgrade. */
module UpdateManifest {
  import opened Texts
  import opened Versions
  import opened VersionOrder

  const PAYLOAD_SCHEMA: int := 1
  const STRATEGY_SCHEMA: int := 1

  datatype Eligibility =
    | Current | Upgrade | DowngradeRejected | PrereleaseRejected
    | LauncherTooOld | SchemaUnsupported | InvalidVersion

  /** The fields of a payload or launcher artifact that the decisions read. */
  datatype Artifact = Artifact(
    version: string,
    minimumSupportedVersion: string,
    minimumLauncherVersion: string,
    payloadSchema: int,
    strategySchema: int)

  function EvaluatePayload(payload: Artifact, currentPayload: string, launcherVersion: string,
                           stableChannel: bool): Eligibility {
    var current, candidate := Parsed(currentPayload), Parsed(payload.version);
    var launcher, minimum := Parsed(launcherVersion), Parsed(payload.minimumLauncherVersion);
    if current.None? || candidate.None? || launcher.None? || minimum.None? then InvalidVersion
    else if stableChannel && candidate.value.prerelease then PrereleaseRejected
    else if Compare(candidate.value, current.value) < 0 then DowngradeRejected
    else if Compare(candidate.value, current.value) == 0 then Current
    else if Compare(launcher.value, minimum.value) < 0 then LauncherTooOld
    else if payload.payloadSchema != PAYLOAD_SCHEMA || payload.strategySchema != STRATEGY_SCHEMA
    then SchemaUnsupported
    else Upgrade
  }

  function EvaluateLauncher(launcher: Artifact, currentLauncher: string, stableChannel: bool): Eligibility {
    var current, candidate := Parsed(currentLauncher), Parsed(launcher.version);
    var minimum := Parsed(launcher.minimumSupportedVersion);
    if current.None? || candidate.None? || minimum.None? then InvalidVersion
    else if stableChannel && candidate.value.prerelease then PrereleaseRejected
    else if Compare(candidate.value, current.value) < 0 then DowngradeRejected
    else if Compare(candidate.value, current.value) == 0 then Current
    else if Compare(current.value, minimum.value) < 0 then LauncherTooOld
    else Upgrade
  }

  /** What is upgraded: a payload under a launcher of some version, or the launcher itself. */
  datatype Track = PayloadTrack(launcher: string) | LauncherTrack

  function Evaluate(track: Track, artifact: Artifact, current: string, stable: bool): Eligibility {
    match track
    case PayloadTrack(launcher) => EvaluatePayload(artifact, current, launcher, stable)
    case LauncherTrack => EvaluateLauncher(artifact, current, stable)
  }

  // ---- when each answer is given ---------------------------------------------------

  predicate IsVersion(text: string) { Parsed(text).Some? }

  predicate IsPrerelease(text: string) { Parsed(text).Some? && Parsed(text).value.prerelease }

  /** Version text `a` comes before version text `b`. */
  ghost predicate Older(a: string, b: string) {
    Parsed(a).Some? && Parsed(b).Some? && Precedes(Parsed(a).value, Parsed(b).value)
  }

  lemma ComparedOlder(a: string, b: string)
    requires Parsed(a).Some? && Parsed(b).Some?
    ensures Compare(Parsed(a).value, Parsed(b).value) < 0 <==> Older(a, b)
    ensures Compare(Parsed(a).value, Parsed(b).value) > 0 <==> Older(b, a)
  {
    hide Compare, Precedes, Parsed;
    LessExactly(a, b);
    LessExactly(b, a);
    CompareAntisymmetric(Parsed(a).value, Parsed(b).value);
  }

  /** Exactly when a payload gets each answer, in the precedence of versions. */
  lemma PayloadAnswers(a: Artifact, current: string, launcher: string, stable: bool)
    ensures var e, version, minimum := EvaluatePayload(a, current, launcher, stable), a.version, a.minimumLauncherVersion;
            if !IsVersion(current) || !IsVersion(version) || !IsVersion(launcher) || !IsVersion(minimum)
            then e == InvalidVersion
            else if stable && IsPrerelease(version) then e == PrereleaseRejected
            else
              && (e == DowngradeRejected <==> Older(version, current))
              && (e == Current <==> !Older(version, current) && !Older(current, version))
              && (e == LauncherTooOld <==> Older(current, version) && Older(launcher, minimum))
              && (e == Upgrade <==> Older(current, version) && !Older(launcher, minimum)
                                    && a.payloadSchema == 1 && a.strategySchema == 1)
  {
    hide Parsed, Compare, Older;
    if IsVersion(current) && IsVersion(a.version) && IsVersion(launcher) && IsVersion(a.minimumLauncherVersion) {
      ComparedOlder(a.version, current);
      ComparedOlder(launcher, a.minimumLauncherVersion);
    }
  }

  /** Exactly when the launcher gets each answer: it is held back by the oldest launcher that may be
      upgraded. */
  lemma LauncherAnswers(a: Artifact, current: string, stable: bool)
    ensures var e, version, minimum := EvaluateLauncher(a, current, stable), a.version, a.minimumSupportedVersion;
            if !IsVersion(current) || !IsVersion(version) || !IsVersion(minimum) then e == InvalidVersion
            else if stable && IsPrerelease(version) then e == PrereleaseRejected
            else
              && (e == DowngradeRejected <==> Older(version, current))
              && (e == Current <==> !Older(version, current) && !Older(current, version))
              && (e == LauncherTooOld <==> Older(current, version) && Older(current, minimum))
              && (e == Upgrade <==> Older(current, version) && !Older(current, minimum))
  {
    hide Parsed, Compare, Older;
    if IsVersion(current) && IsVersion(a.version) && IsVersion(a.minimumSupportedVersion) {
      ComparedOlder(a.version, current);
      ComparedOlder(current, a.minimumSupportedVersion);
    }
  }

  // ---- no chain of upgrades comes back ----------------------------------------

  /** `a` is a strictly newer version text than `b`. */
  predicate Newer(a: string, b: string) {
    Parsed(a).Some? && Parsed(b).Some? && Compare(Parsed(a).value, Parsed(b).value) > 0
  }

  /** A version text whose numeric prerelease identifiers are below `bound`. */
  predicate Bounded(text: string, bound: nat) {
    Parsed(text).Some? && NumbersBelow(Parsed(text).value, bound)
  }

  lemma NewerIrreflexive(a: string, b: string)
    requires Newer(a, b)
    ensures !Newer(b, a) && a != b
  {
    CompareAntisymmetric(Parsed(a).value, Parsed(b).value);
  }

  lemma NeverNewerThanItself(a: string)
    ensures !Newer(a, a)
  {
    if Parsed(a).Some? { CompareAntisymmetric(Parsed(a).value, Parsed(a).value); }
  }

  lemma NewerTransitive(a: string, b: string, c: string)
    requires Newer(a, b) && Newer(b, c)
    requires Bounded(a, TWO64) && Bounded(b, TWO64) && Bounded(c, TWO64)
    ensures Newer(a, c)
  {
    hide Compare, Parsed;
    var x, y, z := Parsed(a).value, Parsed(b).value, Parsed(c).value;
    CompareAntisymmetric(x, y);
    CompareAntisymmetric(y, z);
    CompareAntisymmetric(x, z);
    CompareChain(z, y, x);
  }

  /** The version installed before artifact `i` of a chain. */
  function Before(start: string, chain: seq<Artifact>, i: nat): string
    requires i <= |chain|
  {
    if i == 0 then start else chain[i - 1].version
  }

  /** Artifacts answered Upgrade one after the other, the first against `start`. */
  predicate UpgradeChain(start: string, chain: seq<Artifact>, track: Track, stable: bool) {
    forall i | 0 <= i < |chain| ::
      Evaluate(track, chain[i], Before(start, chain, i), stable) == Upgrade
  }

  predicate ChainBounded(start: string, chain: seq<Artifact>, bound: nat) {
    Bounded(start, bound) && forall i | 0 <= i < |chain| :: Bounded(chain[i].version, bound)
  }

  lemma UpgradeIsNewer(artifact: Artifact, current: string, track: Track, stable: bool)
    requires Evaluate(track, artifact, current, stable) == Upgrade
    ensures Newer(artifact.version, current)
  {}

  lemma ChainPrefix(start: string, chain: seq<Artifact>, track: Track, stable: bool)
    requires |chain| > 1 && UpgradeChain(start, chain, track, stable) && ChainBounded(start, chain, TWO64)
    ensures UpgradeChain(start, chain[..|chain| - 1], track, stable)
    ensures ChainBounded(start, chain[..|chain| - 1], TWO64)
  {
    hide Evaluate, Bounded;
    var front := chain[..|chain| - 1];
    forall i | 0 <= i < |front|
      ensures Evaluate(track, front[i], Before(start, front, i), stable) == Upgrade
      ensures Bounded(front[i].version, TWO64)
    {
      assert front[i] == chain[i] && Before(start, front, i) == Before(start, chain, i);
    }
  }

  lemma {:induction false} ChainClimbs(start: string, chain: seq<Artifact>, track: Track, stable: bool)
    requires |chain| > 0 && UpgradeChain(start, chain, track, stable) && ChainBounded(start, chain, TWO64)
    ensures Newer(chain[|chain| - 1].version, start)
    decreases |chain|
  {
    hide Evaluate, Newer, Bounded;
    var n := |chain| - 1;
    UpgradeIsNewer(chain[n], Before(start, chain, n), track, stable);
    if n > 0 {
      ChainPrefix(start, chain, track, stable);
      ChainClimbs(start, chain[..n], track, stable);
      NewerTransitive(chain[n].version, chain[n - 1].version, start);
    }
  }

  // ---- the stable channel ---------------------------------------------------------

  /** A comparison with a release never looks at prerelease identifiers. */
  lemma ReleaseIgnoresIds(a: Version, c: Version)
    requires !a.prerelease
    ensures Compare(a, c) == Compare(a, c.(prereleaseIds := []))
  {
    hide CompareParts, CompareText, CompareIds;
  }

  predicate IsRelease(text: string) { Parsed(text).Some? && !Parsed(text).value.prerelease }

  lemma ReleaseHasNoIds(text: string)
    requires IsRelease(text)
    ensures Parsed(text).value.prereleaseIds == []
  {
    hide Core, Suffix, StripV;
  }

  /** Above releases the order is transitive whatever the numbers. */
  lemma ReleasesTransitive(a: string, b: string, c: string)
    requires Newer(a, b) && Newer(b, c) && IsRelease(a) && IsRelease(b)
    ensures Newer(a, c)
  {
    hide Compare, Parsed;
    var x, y, z := Parsed(a).value, Parsed(b).value, Parsed(c).value.(prereleaseIds := []);
    ReleaseIgnoresIds(x, Parsed(c).value);
    ReleaseIgnoresIds(y, Parsed(c).value);
    ReleaseHasNoIds(a);
    ReleaseHasNoIds(b);
    CompareAntisymmetric(x, y);
    CompareAntisymmetric(y, z);
    CompareAntisymmetric(x, z);
    CompareChain(z, y, x);
  }

  lemma StableIsRelease(artifact: Artifact, current: string, track: Track)
    requires Evaluate(track, artifact, current, true) == Upgrade
    ensures IsRelease(artifact.version)
  {}

  lemma StablePrefix(start: string, chain: seq<Artifact>, track: Track)
    requires |chain| > 1 && UpgradeChain(start, chain, track, true)
    ensures UpgradeChain(start, chain[..|chain| - 1], track, true)
  {
    hide Evaluate;
    var front := chain[..|chain| - 1];
    forall i | 0 <= i < |front| ensures Evaluate(track, front[i], Before(start, front, i), true) == Upgrade {
      assert front[i] == chain[i] && Before(start, front, i) == Before(start, chain, i);
    }
  }

  lemma {:induction false} StableClimbs(start: string, chain: seq<Artifact>, track: Track)
    requires |chain| > 0 && UpgradeChain(start, chain, track, true)
    ensures Newer(chain[|chain| - 1].version, start) && IsRelease(chain[|chain| - 1].version)
    decreases |chain|
  {
    hide Evaluate, Newer, IsRelease;
    var n := |chain| - 1;
    UpgradeIsNewer(chain[n], Before(start, chain, n), track, true);
    StableIsRelease(chain[n], Before(start, chain, n), track);
    if n > 0 {
      StablePrefix(start, chain, track);
      StableClimbs(start, chain[..n], track);
      ReleasesTransitive(chain[n].version, chain[n - 1].version, start);
    }
  }

  // ---- when chains climb ------------------------------------------------------------

  /** Every chain of upgrades of payloads, or of launchers, on a channel among versions below
      `bound` ends in a newer version. */
  ghost predicate UpgradesClimb(bound: nat, stable: bool, launchers: bool) {
    forall start, chain: seq<Artifact>, track: Track |
      |chain| > 0 && track.LauncherTrack? == launchers
      && UpgradeChain(start, chain, track, stable) && ChainBounded(start, chain, bound)
      :: Newer(chain[|chain| - 1].version, start)
  }

  /** An artifact that any launcher at version 1 may install. */
  function Offered(version: string): Artifact {
    Artifact(version, "0", "1", PAYLOAD_SCHEMA, STRATEGY_SCHEMA)
  }

  /** Payloads for a launcher at version 1, or launchers. */
  function LoopTrack(launchers: bool): Track { if launchers then LauncherTrack else PayloadTrack("1") }

  lemma OfferedIsUpgrade(version: string, id: string, launchers: bool)
    requires Newer(version, PreText(id)) && ValidIdentifier(id)
    ensures Evaluate(LoopTrack(launchers), Offered(version), PreText(id), false) == Upgrade
  {
    hide Parsed, Compare;
    PlainOne();
    CompareAntisymmetric(Parsed("1").value, Parsed("1").value);
    PreParses(id);
    assert Decimal(0) == "0";
    PlainParses(0);
    AboveZero(id);
  }

  lemma AboveZero(id: string)
    ensures Compare(PreVersion(id), Plain(0)) == 1
  {
    assert CompareParts([1], [0], 0) == 1;
  }

  lemma LoopSteps()
    ensures Newer(PreText("10"), PreText("9")) && Newer(PreText(HUGE), PreText("10"))
    ensures Newer(PreText("9"), PreText(HUGE))
    ensures Bounded(PreText("9"), TWO64 + 1) && Bounded(PreText("10"), TWO64 + 1)
    ensures Bounded(PreText(HUGE), TWO64 + 1)
  {
    hide Compare, Parsed;
    OverflowCycle();
    CompareAntisymmetric(PreVersion("9"), PreVersion("10"));
    CompareAntisymmetric(PreVersion("10"), PreVersion(HUGE));
    CompareAntisymmetric(PreVersion(HUGE), PreVersion("9"));
  }

  lemma LoopIdentifiers()
    ensures ValidIdentifier("9") && ValidIdentifier("10") && ValidIdentifier(HUGE)
  {
    hide Value, Decimal;
    HugeText();
    SmallValues();
  }

  lemma OverflowLoop(launchers: bool) returns (chain: seq<Artifact>)
    ensures |chain| == 3 && chain[2].version == PreText("9")
    ensures UpgradeChain(PreText("9"), chain, LoopTrack(launchers), false)
    ensures ChainBounded(PreText("9"), chain, TWO64 + 1)
  {
    hide Evaluate, Newer, Bounded, PreText, LoopTrack, ValidIdentifier;
    LoopSteps();
    LoopIdentifiers();
    OfferedIsUpgrade(PreText("10"), "9", launchers);
    OfferedIsUpgrade(PreText(HUGE), "10", launchers);
    OfferedIsUpgrade(PreText("9"), HUGE, launchers);
    chain := [Offered(PreText("10")), Offered(PreText(HUGE)), Offered(PreText("9"))];
  }

  /** The version whose text is a single number. */
  function Plain(n: nat): Version { Version([n], "", false, "", []) }

  lemma PlainParses(n: nat)
    requires n < TWO64 && |Decimal(n)| <= MAX_TEXT
    ensures Parsed(Decimal(n)) == Some(Plain(n))
  {
    DecimalCanonical(n);
    DecimalsOfOne(n);
    assert StripV(Decimal(n)) == Decimal(n);
    assert SuffixText("", None, None) == "";
    assert Derives(Decimal(n), Plain(n), None);
    ParseComplete(Decimal(n), Plain(n), None);
  }

  lemma PlainOne()
    ensures Parsed("1").Some? && Newer("2", "1")
  {
    assert Decimal(1) == "1" && Decimal(2) == "2";
    PlainParses(1);
    PlainParses(2);
    assert CompareParts([2], [1], 0) == 1;
  }

  /** Accepted upgrades of payloads, and those of launchers, never lead back to a version that was
      left behind, exactly on the stable channel, where prereleases are refused, or as long as
      numeric prerelease identifiers fit in 64 bits. */
  lemma UpgradesClimbExactly(bound: nat, stable: bool, launchers: bool)
    ensures UpgradesClimb(bound, stable, launchers) <==> stable || bound <= TWO64
  {
    hide UpgradeChain, Newer, ChainBounded, PreText;
    if stable {
      forall start, chain: seq<Artifact>, track: Track |
        |chain| > 0 && UpgradeChain(start, chain, track, stable) && ChainBounded(start, chain, bound)
        ensures Newer(chain[|chain| - 1].version, start)
      {
        StableClimbs(start, chain, track);
      }
    } else if bound <= TWO64 {
      forall start, chain: seq<Artifact>, track: Track |
        |chain| > 0 && UpgradeChain(start, chain, track, stable) && ChainBounded(start, chain, bound)
        ensures Newer(chain[|chain| - 1].version, start)
      {
        assert ChainBounded(start, chain, TWO64) by { BoundGrows(start, chain, bound, TWO64); }
        ChainClimbs(start, chain, track, stable);
      }
    } else {
      var start := PreText("9");
      var chain := OverflowLoop(launchers);
      BoundGrows(start, chain, TWO64 + 1, bound);
      NeverNewerThanItself(start);
      assert LoopTrack(launchers).LauncherTrack? == launchers;
      assert !Newer(chain[|chain| - 1].version, start);
    }
  }

  lemma BoundGrows(start: string, chain: seq<Artifact>, small: nat, large: nat)
    requires small <= large && ChainBounded(start, chain, small)
    ensures ChainBounded(start, chain, large)
  {}
}
