/** The entries of an update package: which paths are allowed, and what a list of entries must
    satisfy. */
module UpdatePackage {
  import opened Texts

  datatype EntryType = Regular | Other

  datatype Entry = Entry(path: string, kind: EntryType, size: nat, sha256: string)

  datatype Limits = Limits(maxFiles: nat, maxTotalBytes: nat, maxFileBytes: nat)

  /** Limits within the widths of their types, with a file never above the whole. */
  predicate Sane(limits: Limits) { limits.maxFileBytes <= limits.maxTotalBytes < TWO64 }

  // ---- paths ----------------------------------------------------------------------------------

  predicate IsReserved(device: string) {
    || device in {"con", "prn", "aux", "nul"}
    || (|device| == 4 && (device[..3] == "com" || device[..3] == "lpt") && '1' <= device[3] <= '9')
  }

  predicate IsForbidden(c: char) { c < ' ' || c == 0x7F as char || c in "*?\"<>|" }

  /** A name that Windows takes as it is: no device, no trailing dot or blank, no wildcard. */
  predicate SafeComponent(s: string) {
    && s != "" && s != "." && s != ".." && s[|s| - 1] != ' ' && s[|s| - 1] != '.'
    && (forall i | 0 <= i < |s| :: !IsForbidden(s[i]))
    && !IsReserved(Lower(s[..Find(s, '.', 0)]))
  }

  predicate AllSafe(parts: seq<string>) { forall i | 0 <= i < |parts| :: SafeComponent(parts[i]) }

  const MANIFEST: string := "runtime-manifest.json"
  const NUL: char := 0 as char

  predicate Allowlisted(path: string) {
    || "bin/" <= path || "lists/" <= path
    || path == "strategies/catalog.json" || path == "provenance.json" || path == MANIFEST
  }

  /** The paths a package may hold. */
  predicate SafePath(path: string) {
    && 0 < |path| <= 240 && '\\' !in path && ':' !in path && NUL !in path
    && AllSafe(Split(path, '/')) && Allowlisted(path)
  }

  method CheckComponent(component: string) returns (ok: bool)
    ensures ok == SafeComponent(component)
  {
    if component == "" || component == "." || component == ".." { return false; }
    if component[|component| - 1] == ' ' || component[|component| - 1] == '.' { return false; }
    for i := 0 to |component|
      invariant forall k | 0 <= k < i :: !IsForbidden(component[k])
    {
      var c := component[i];
      if c < ' ' || c == 0x7F as char || c == '*' || c == '?' || c == '"' || c == '<' || c == '>' || c == '|' {
        return false;
      }
    }
    var device := Lower(component[..Find(component, '.', 0)]);
    ok := !IsReserved(device);
  }

  /** The components of the rest of a path. */
  lemma SplitStep(s: string, pos: nat)
    requires pos <= |s|
    ensures var slash := Find(s, '/', pos);
            Split(s[pos..], '/') == if slash == |s| then [s[pos..]] else [s[pos..slash]] + Split(s[slash + 1..], '/')
  {
    hide Find;
    FindShift(s, '/', pos);
    SliceShift(s, pos, Find(s, '/', pos));
  }

  /** The components from `pos` on are safe. */
  predicate RestSafe(s: string, pos: nat)
    requires pos <= |s|
  {
    AllSafe(Split(s[pos..], '/'))
  }

  lemma RestSafeStep(s: string, pos: nat)
    requires pos <= |s|
    ensures var slash := Find(s, '/', pos);
            RestSafe(s, pos) == (SafeComponent(s[pos..slash]) && (slash == |s| || RestSafe(s, slash + 1)))
  {
    hide SafeComponent, Split, AllSafe;
    SplitStep(s, pos);
    var slash := Find(s, '/', pos);
    AllSafeCons(s[pos..slash], if slash == |s| then [] else Split(s[slash + 1..], '/'));
    AllSafeNone();
    if slash == |s| { assert s[pos..slash] == s[pos..] && [s[pos..]] + [] == [s[pos..]]; }
  }

  lemma AllSafeNone()
    ensures AllSafe([])
  {}

  /** What the loop has rebuilt when it is about to read the component at `pos`. */
  predicate Rebuilt(normalized: string, s: string, pos: nat) {
    pos <= |s| && if pos == 0 then normalized == "" else pos >= 2 && s[pos - 1] == '/' && normalized == s[..pos - 1]
  }

  lemma RebuiltStep(normalized: string, s: string, pos: nat)
    requires Rebuilt(normalized, s, pos)
    ensures var slash := Find(s, '/', pos);
            var next := (if normalized != "" then normalized + "/" else normalized) + s[pos..slash];
            next == s[..slash] && (slash < |s| && slash > pos ==> Rebuilt(next, s, slash + 1))
  {
    var slash := Find(s, '/', pos);
    if pos > 0 { assert s[..pos - 1] + "/" == s[..pos]; }
    assert s[..pos] + s[pos..slash] == s[..slash];
  }

  /** The loop over the components. */
  method RebuildPath(input: string) returns (ok: bool, normalized: string)
    ensures ok == RestSafe(input, 0) && (ok ==> normalized == input)
  {
    hide SafeComponent, RestSafe, Rebuilt;
    normalized := "";
    var pos := 0;
    assert Rebuilt(normalized, input, pos) by { RebuiltNothing(input); }
    while true
      invariant pos <= |input| && Rebuilt(normalized, input, pos)
      invariant RestSafe(input, 0) == RestSafe(input, pos)
      decreases |input| - pos
    {
      var slash := Find(input, '/', pos);
      RestSafeStep(input, pos);
      RebuiltStep(normalized, input, pos);
      var component := input[pos..slash];
      ok := CheckComponent(component);
      if !ok { return; }
      SafeNotEmpty(component);
      if normalized != "" { normalized := normalized + "/"; }
      normalized := normalized + component;
      if slash == |input| { break; }
      pos := slash + 1;
    }
    assert input[..|input|] == input;
  }

  lemma RebuiltNothing(s: string)
    ensures Rebuilt("", s, 0)
  {}

  /** What is accepted is given back unchanged. */
  method NormalizePackagePath(input: string) returns (r: Option<string>)
    ensures r == if SafePath(input) then Some(input) else None
  {
    if input == "" || |input| > 240 || '\\' in input || ':' in input || NUL in input { return None; }
    if input[0] == '/' {
      LeadingSlash(input);
      return None;
    }
    hide Split, AllSafe;
    var ok, normalized := RebuildPath(input);
    assert input[0..] == input;
    if !ok || !Allowlisted(normalized) { return None; }
    return Some(normalized);
  }

  lemma LeadingSlash(input: string)
    requires input != "" && input[0] == '/'
    ensures !SafePath(input)
  {
    FindIs(input, '/', 0);
    assert Split(input, '/')[0] == "";
  }

  lemma SafeNotEmpty(s: string)
    requires SafeComponent(s)
    ensures s != ""
  {}

  lemma AllSafeCons(head: string, tail: seq<string>)
    ensures AllSafe([head] + tail) == (SafeComponent(head) && AllSafe(tail))
  {
    hide SafeComponent;
    var all := [head] + tail;
    assert forall i | 0 <= i < |tail| :: all[i + 1] == tail[i];
    assert all[0] == head;
  }

  // ---- entries --------------------------------------------------------------------------------

  /** Subtraction of unsigned 64-bit numbers, which wraps around. */
  function Sub64(a: nat, b: nat): nat
    requires a < TWO64 && b < TWO64
  {
    if a >= b then a - b else a + TWO64 - b
  }

  function Add64(a: nat, b: nat): nat { (a + b) % TWO64 }

  /** What each entry must satisfy by itself. */
  predicate EntryOk(e: Entry, limits: Limits) {
    && e.kind.Regular? && SafePath(e.path) && 0 < e.size <= limits.maxFileBytes && e.size < TWO64
    && IsSha256(e.sha256)
  }

  /** No two paths are the same up to case. */
  predicate Distinct(es: seq<Entry>) {
    forall i, j | 0 <= i < j < |es| :: Lower(es[i].path) != Lower(es[j].path)
  }

  function TotalSize(es: seq<Entry>): nat {
    if es == [] then 0 else TotalSize(es[..|es| - 1]) + es[|es| - 1].size
  }

  /** The running total of the sizes as the code keeps it, in 64 bits; nothing when a step of it
      does not pass its check. */
  function Running(es: seq<Entry>, maxTotal: nat): (r: Option<nat>)
    requires maxTotal < TWO64 && forall i | 0 <= i < |es| :: es[i].size < TWO64
    ensures r.Some? ==> r.value < TWO64
  {
    if es == [] then Some(0) else
    var before, size := Running(es[..|es| - 1], maxTotal), es[|es| - 1].size;
    if before.None? || before.value > Sub64(maxTotal, size) then None
    else Some(Add64(before.value, size))
  }

  predicate Holds(es: seq<Entry>, folded: string) { exists i | 0 <= i < |es| :: Lower(es[i].path) == folded }

  predicate HoldsUnder(es: seq<Entry>, prefix: string) { exists i | 0 <= i < |es| :: prefix <= Lower(es[i].path) }

  predicate Mandatory(es: seq<Entry>) {
    Holds(es, "bin/winws.exe") && Holds(es, "provenance.json") && HoldsUnder(es, "strategies/") && Holds(es, MANIFEST)
  }

  predicate EachOk(es: seq<Entry>, limits: Limits) { forall i | 0 <= i < |es| :: EntryOk(es[i], limits) }

  predicate Acceptable(es: seq<Entry>, limits: Limits)
    requires limits.maxTotalBytes < TWO64
  {
    && 0 < |es| <= limits.maxFiles && EachOk(es, limits) && Distinct(es)
    && Running(es, limits.maxTotalBytes).Some? && Mandatory(es)
  }

  /** Within sane limits the running total is the true one, so its checks bound the true total. */
  lemma {:induction false} RunningExact(es: seq<Entry>, limits: Limits)
    requires Sane(limits) && EachOk(es, limits)
    ensures Running(es, limits.maxTotalBytes)
         == if TotalSize(es) <= limits.maxTotalBytes then Some(TotalSize(es)) else None
  {
    hide EntryOk;
    if es != [] {
      var front, last := es[..|es| - 1], es[|es| - 1];
      SizeOk(last, limits);
      forall i | 0 <= i < |front| ensures EntryOk(front[i], limits) { assert front[i] == es[i]; }
      RunningExact(front, limits);
    }
  }

  lemma SizeOk(e: Entry, limits: Limits)
    requires EntryOk(e, limits)
    ensures 0 < e.size <= limits.maxFileBytes && e.size < TWO64
  {}

  // ---- ValidatePackageEntries ------------------------------------------------------------------

  /** The checks of the loop, passed by the first entries. */
  predicate Passed(es: seq<Entry>, limits: Limits)
    requires limits.maxTotalBytes < TWO64
  {
    EachOk(es, limits) && Distinct(es) && Running(es, limits.maxTotalBytes).Some?
  }

  function FoldedPaths(es: seq<Entry>): set<string> { set e | e in es :: Lower(e.path) }

  /** What the loop must find of the next entry, with the state it has built. */
  predicate NextOk(e: Entry, seen: set<string>, total: nat, limits: Limits)
    requires limits.maxTotalBytes < TWO64
  {
    EntryOk(e, limits) && Lower(e.path) !in seen && total <= Sub64(limits.maxTotalBytes, e.size)
  }

  lemma EachOkSnoc(es: seq<Entry>, e: Entry, limits: Limits)
    ensures EachOk(es + [e], limits) <==> EachOk(es, limits) && EntryOk(e, limits)
  {
    hide EntryOk;
    var all := es + [e];
    assert all[|es|] == e && forall i | 0 <= i < |es| :: all[i] == es[i];
  }

  lemma DistinctSnoc(es: seq<Entry>, e: Entry)
    ensures Distinct(es + [e]) <==> Distinct(es) && Lower(e.path) !in FoldedPaths(es)
  {
    var all := es + [e];
    assert all[|es|] == e && forall i | 0 <= i < |es| :: all[i] == es[i];
    if Lower(e.path) in FoldedPaths(es) {
      var i :| 0 <= i < |es| && Lower(es[i].path) == Lower(e.path);
      assert Lower(all[i].path) == Lower(all[|es|].path);
    }
    if Lower(e.path) !in FoldedPaths(es) {
      assert forall i | 0 <= i < |es| :: es[i] in es && Lower(es[i].path) in FoldedPaths(es);
    }
  }

  lemma PassedSnoc(es: seq<Entry>, e: Entry, limits: Limits)
    requires limits.maxTotalBytes < TWO64 && Passed(es, limits)
    ensures Passed(es + [e], limits) <==> NextOk(e, FoldedPaths(es), Running(es, limits.maxTotalBytes).value, limits)
    ensures Passed(es + [e], limits) ==>
            Running(es + [e], limits.maxTotalBytes).value == Add64(Running(es, limits.maxTotalBytes).value, e.size)
  {
    hide EntryOk, EachOk, Distinct, FoldedPaths;
    EachOkSnoc(es, e, limits);
    DistinctSnoc(es, e);
    EachOkSizes(es + [e], limits);
    assert (es + [e])[..|es|] == es;
  }

  lemma EachOkSizes(es: seq<Entry>, limits: Limits)
    ensures EachOk(es, limits) ==> forall i | 0 <= i < |es| :: es[i].size < TWO64
  {
    hide SafePath, IsSha256;
  }

  lemma {:induction false} PassedPrefix(es: seq<Entry>, n: nat, limits: Limits)
    requires limits.maxTotalBytes < TWO64 && n <= |es| && Passed(es, limits)
    ensures Passed(es[..n], limits)
  {
    hide EntryOk;
    if n < |es| {
      var front := es[..|es| - 1];
      assert es == front + [es[|es| - 1]];
      assert forall i | 0 <= i < |front| :: front[i] == es[i];
      PassedPrefix(front, n, limits);
      assert front[..n] == es[..n];
    } else {
      assert es[..n] == es;
    }
  }

  lemma HoldsSnoc(es: seq<Entry>, e: Entry, folded: string)
    ensures Holds(es + [e], folded) <==> Holds(es, folded) || Lower(e.path) == folded
    ensures HoldsUnder(es + [e], folded) <==> HoldsUnder(es, folded) || folded <= Lower(e.path)
  {
    var all := es + [e];
    assert all[|es|] == e && forall i | 0 <= i < |es| :: all[i] == es[i];
  }

  /** The checks of one pass of the loop. */
  method CheckEntry(e: Entry, seen: set<string>, total: nat, limits: Limits) returns (ok: bool, folded: string)
    requires limits.maxTotalBytes < TWO64 && e.size < TWO64
    ensures ok == NextOk(e, seen, total, limits) && (ok ==> folded == Lower(e.path))
  {
    hide SafePath, IsSha256, Sub64;
    if e.kind != Regular { return false, ""; }
    var path := NormalizePackagePath(e.path);
    if path.None? { return false, ""; }
    folded := Lower(path.value);
    if folded in seen { return false, ""; }
    if e.size == 0 || e.size > limits.maxFileBytes || total > Sub64(limits.maxTotalBytes, e.size) {
      return false, "";
    }
    ok := IsSha256(e.sha256);
  }

  method ValidatePackageEntries(entries: seq<Entry>, limits: Limits) returns (ok: bool)
    requires limits.maxTotalBytes < TWO64 && forall i | 0 <= i < |entries| :: entries[i].size < TWO64
    ensures ok == Acceptable(entries, limits)
  {
    TooMany(entries, limits);
    if entries == [] || |entries| > limits.maxFiles { return false; }
    hide Passed, NextOk, Reached, Flags, Mandatory, Acceptable, Lower, Add64;
    var seen := {};
    var total := 0;
    var winws, provenance, strategies, manifest := false, false, false, false;
    NothingPassed(limits);
    for i := 0 to |entries|
      invariant Reached(entries[..i], seen, total, limits)
      invariant Flags(entries[..i], winws, provenance, strategies, manifest)
    {
      var entry := entries[i];
      var next, folded := CheckEntry(entry, seen, total, limits);
      assert entries[..i + 1] == entries[..i] + [entry];
      ReachedNext(entries[..i], entry, seen, total, limits);
      if !next {
        NotPassed(entries, i + 1, limits);
        return false;
      }
      FlagsSnoc(entries[..i], entry, winws, provenance, strategies, manifest);
      seen := seen + {folded};
      total := Add64(total, entry.size);
      winws := winws || folded == "bin/winws.exe";
      provenance := provenance || folded == "provenance.json";
      strategies := strategies || "strategies/" <= folded;
      manifest := manifest || folded == MANIFEST;
    }
    assert entries[..|entries|] == entries;
    ReachedMeans(entries, seen, total, limits);
    FlagsMean(entries, winws, provenance, strategies, manifest);
    ok := winws && provenance && strategies && manifest;
  }

  /** The first entries passed, and what the loop knows of them. */
  predicate Reached(es: seq<Entry>, seen: set<string>, total: nat, limits: Limits)
    requires limits.maxTotalBytes < TWO64
  {
    Passed(es, limits) && seen == FoldedPaths(es) && Running(es, limits.maxTotalBytes) == Some(total)
  }

  lemma ReachedNext(es: seq<Entry>, e: Entry, seen: set<string>, total: nat, limits: Limits)
    requires limits.maxTotalBytes < TWO64 && Reached(es, seen, total, limits)
    ensures NextOk(e, seen, total, limits) <==> Passed(es + [e], limits)
    ensures NextOk(e, seen, total, limits) ==> Reached(es + [e], seen + {Lower(e.path)}, Add64(total, e.size), limits)
  {
    hide NextOk, EachOk, Distinct, FoldedPaths, Lower;
    PassedSnoc(es, e, limits);
    FoldedSnoc(es, e);
    EachOkSizes(es + [e], limits);
  }

  lemma NothingPassed(limits: Limits)
    requires limits.maxTotalBytes < TWO64
    ensures Reached([], {}, 0, limits)
    ensures Flags([], false, false, false, false)
  {}

  /** Which mandatory paths the entries hold. */
  predicate Flags(es: seq<Entry>, winws: bool, provenance: bool, strategies: bool, manifest: bool) {
    && winws == Holds(es, "bin/winws.exe") && provenance == Holds(es, "provenance.json")
    && strategies == HoldsUnder(es, "strategies/") && manifest == Holds(es, MANIFEST)
  }

  lemma TooMany(es: seq<Entry>, limits: Limits)
    requires limits.maxTotalBytes < TWO64
    ensures Acceptable(es, limits) ==> 0 < |es| <= limits.maxFiles
  {}

  lemma FlagsSnoc(es: seq<Entry>, e: Entry, winws: bool, provenance: bool, strategies: bool, manifest: bool)
    requires Flags(es, winws, provenance, strategies, manifest)
    ensures var folded := Lower(e.path);
            Flags(es + [e], winws || folded == "bin/winws.exe", provenance || folded == "provenance.json",
                  strategies || "strategies/" <= folded, manifest || folded == MANIFEST)
  {
    hide Holds, HoldsUnder, Lower;
    HoldsSnoc(es, e, "bin/winws.exe");
    HoldsSnoc(es, e, "provenance.json");
    HoldsSnoc(es, e, "strategies/");
    HoldsSnoc(es, e, MANIFEST);
  }

  lemma FlagsMean(es: seq<Entry>, winws: bool, provenance: bool, strategies: bool, manifest: bool)
    requires Flags(es, winws, provenance, strategies, manifest)
    ensures Mandatory(es) == (winws && provenance && strategies && manifest)
  {
    hide Holds, HoldsUnder;
  }

  lemma NotPassed(es: seq<Entry>, n: nat, limits: Limits)
    requires limits.maxTotalBytes < TWO64 && n <= |es| && !Passed(es[..n], limits)
    ensures !Acceptable(es, limits)
  {
    hide EachOk, Distinct, Running, Mandatory;
    if Passed(es, limits) { PassedPrefix(es, n, limits); }
  }

  lemma ReachedMeans(es: seq<Entry>, seen: set<string>, total: nat, limits: Limits)
    requires limits.maxTotalBytes < TWO64 && Reached(es, seen, total, limits)
    ensures Acceptable(es, limits) <==> 0 < |es| <= limits.maxFiles && Mandatory(es)
  {}

  lemma FoldedSnoc(es: seq<Entry>, e: Entry)
    ensures FoldedPaths(es + [e]) == FoldedPaths(es) + {Lower(e.path)}
  {}
}
