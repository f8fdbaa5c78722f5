/** When the 64-bit running total of a package bounds its true size. */
module PackageTotals {
  import opened Texts
  import opened UpdatePackage

  /** Limits within the widths of their types. */
  predicate Widths(limits: Limits) { limits.maxTotalBytes < TWO64 && limits.maxFileBytes < TWO64 }

  // ---- paths and hashes that are allowed ---------------------------------------------------

  predicate IsPlain(s: string) { forall i | 0 <= i < |s| :: 'a' <= s[i] <= 'z' || s[i] == '-' }

  predicate IsName(s: string) { forall i | 0 <= i < |s| :: 'a' <= s[i] <= 'z' || s[i] == '-' || s[i] == '.' }

  lemma PlainFolds(s: string)
    requires forall i | 0 <= i < |s| :: !('A' <= s[i] <= 'Z')
    ensures Lower(s) == s
  {}

  /** A lower-case name, with or without an extension. */
  lemma SafeName(stem: string, ext: string)
    requires IsPlain(stem) && IsPlain(ext) && stem != "" && ext != "" && !IsReserved(stem)
    ensures SafeComponent(stem) && SafeComponent(stem + "." + ext) && IsName(stem) && IsName(stem + "." + ext)
  {
    hide IsReserved;
    PlainFolds(stem);
    FindConcat(stem, '.', ext);
    var s := stem + ['.'] + ext;
    assert s == stem + "." + ext && s[..|stem|] == stem && s[|s| - 1] == ext[|ext| - 1];
    FindIs(stem, '.', |stem|);
    assert stem[..|stem|] == stem;
  }

  lemma SafeOne(name: string)
    requires SafeComponent(name) && |name| <= 240 && Allowlisted(name) && IsName(name)
    ensures SafePath(name)
  {
    hide SafeComponent, Allowlisted;
    SafeNotEmpty(name);
    assert Join([name], '/') == name;
    SplitOfJoin([name], '/');
  }

  lemma SafeTwo(dir: string, name: string, path: string)
    requires SafeComponent(dir) && SafeComponent(name) && path == dir + "/" + name && Allowlisted(path)
    requires |path| <= 240 && IsName(dir) && IsName(name)
    ensures SafePath(path)
  {
    hide SafeComponent, Allowlisted;
    JoinCons(dir, [name], '/');
    SplitOfJoin([dir, name], '/');
  }

  const WINWS: string := "bin/winws.exe"
  const PROVENANCE: string := "provenance.json"
  const CATALOG: string := "strategies/catalog.json"

  lemma SafeWinws()
    ensures SafePath(WINWS)
  {
    hide SafeComponent, SafePath, IsName;
    SafeName("bin", "x");
    SafeName("winws", "exe");
    assert "winws" + "." + "exe" == "winws.exe" && "bin" + "/" + "winws.exe" == WINWS && "bin/" <= WINWS;
    SafeTwo("bin", "winws.exe", WINWS);
  }

  lemma SafeProvenance()
    ensures SafePath(PROVENANCE)
  {
    hide SafeComponent, SafePath, IsName;
    SafeName("provenance", "json");
    assert "provenance" + "." + "json" == PROVENANCE;
    SafeOne(PROVENANCE);
  }

  lemma SafeCatalog()
    ensures SafePath(CATALOG)
  {
    hide SafeComponent, SafePath, IsName;
    SafeName("strategies", "x");
    SafeName("catalog", "json");
    assert "catalog" + "." + "json" == "catalog.json" && "strategies" + "/" + "catalog.json" == CATALOG;
    SafeTwo("strategies", "catalog.json", CATALOG);
  }

  lemma SafeManifest()
    ensures SafePath(MANIFEST)
  {
    hide SafeComponent, SafePath, IsName;
    SafeName("runtime-manifest", "json");
    assert "runtime-manifest" + "." + "json" == MANIFEST;
    SafeOne(MANIFEST);
  }

  /** A text that could be a hash. */
  function Zeros(): (s: string)
    ensures IsSha256(s)
  {
    seq(64, _ => '0')
  }

  function Sized(path: string, size: nat): Entry { Entry(path, Regular, size, Zeros()) }

  lemma SizedOk(path: string, size: nat, limits: Limits)
    requires SafePath(path) && Widths(limits) && 0 < size <= limits.maxFileBytes
    ensures EntryOk(Sized(path, size), limits)
  {
    hide SafePath;
  }

  // ---- the running total ---------------------------------------------------------------------

  /** The running total is the true one, and a true total above the limit is noticed. */
  predicate TotalExact(es: seq<Entry>, limits: Limits)
    requires Widths(limits) && EachOk(es, limits)
  {
    Running(es, limits.maxTotalBytes)
    == if TotalSize(es) <= limits.maxTotalBytes then Some(TotalSize(es)) else None
  }

  lemma OneTotal(e: Entry, m: nat)
    requires e.size == m + 1 < TWO64
    ensures Running([e], m) == Some(m + 1) && TotalSize([e]) == m + 1
  {
    var es := [e];
    assert es[..0] == [] && es[|es| - 1] == e;
  }

  /** The running total is exact if and only if the limit on a file is within the limit on the
      whole: one file just above the whole makes the subtraction wrap around, and passes. */
  lemma TotalsExactly(limits: Limits)
    requires Widths(limits)
    ensures (forall es | EachOk(es, limits) :: TotalExact(es, limits))
       <==> limits.maxFileBytes <= limits.maxTotalBytes
  {
    hide EntryOk, SafePath;
    if limits.maxFileBytes <= limits.maxTotalBytes {
      forall es | EachOk(es, limits) ensures TotalExact(es, limits) { RunningExact(es, limits); }
    } else {
      var e := Sized(WINWS, limits.maxTotalBytes + 1);
      SafeWinws();
      SizedOk(WINWS, limits.maxTotalBytes + 1, limits);
      OneTotal(e, limits.maxTotalBytes);
      assert EachOk([e], limits) && !TotalExact([e], limits);
    }
  }

  // ---- what the validation accepts -------------------------------------------------------------

  /** The four mandatory files, each one byte above the limit on the whole. */
  function FourFiles(limits: Limits): seq<Entry> {
    var n := limits.maxTotalBytes + 1;
    [Sized(WINWS, n), Sized(PROVENANCE, n), Sized(CATALOG, n), Sized(MANIFEST, n)]
  }

  lemma FourTotals(limits: Limits)
    requires Widths(limits) && limits.maxFileBytes > limits.maxTotalBytes
    ensures Running(FourFiles(limits), limits.maxTotalBytes).Some?
    ensures TotalSize(FourFiles(limits)) == 4 * (limits.maxTotalBytes + 1)
  {
    var m, es := limits.maxTotalBytes, FourFiles(limits);
    assert Sub64(m, m + 1) == TWO64 - 1;
    var one, two, three := es[..1], es[..2], es[..3];
    assert three[..2] == two && two[..1] == one && one[..0] == [];
    assert Running(one, m).Some? && TotalSize(one) == m + 1;
    assert Running(two, m).Some? && TotalSize(two) == 2 * (m + 1);
    assert Running(three, m).Some? && TotalSize(three) == 3 * (m + 1);
  }

  lemma FourFolded()
    ensures Lower(WINWS) == "bin/winws.exe" && Lower(PROVENANCE) == "provenance.json"
    ensures Lower(CATALOG) == "strategies/catalog.json" && Lower(MANIFEST) == MANIFEST
  {
    PlainFolds(WINWS);
    PlainFolds(PROVENANCE);
    PlainFolds(CATALOG);
    PlainFolds(MANIFEST);
  }

  /** Four distinct files that the validation accepts although their true total is more than four
      times the limit. */
  lemma WrapUnnoticed(limits: Limits)
    requires Widths(limits) && limits.maxFileBytes > limits.maxTotalBytes && limits.maxFiles >= 4
    ensures Acceptable(FourFiles(limits), limits)
    ensures TotalSize(FourFiles(limits)) > 4 * limits.maxTotalBytes
  {
    hide EntryOk, SafePath, Running, TotalSize, Lower;
    var n, es := limits.maxTotalBytes + 1, FourFiles(limits);
    FourTotals(limits);
    SafeWinws();
    SafeProvenance();
    SafeCatalog();
    SafeManifest();
    SizedOk(WINWS, n, limits);
    SizedOk(PROVENANCE, n, limits);
    SizedOk(CATALOG, n, limits);
    SizedOk(MANIFEST, n, limits);
    FourFolded();
    assert es[0] == Sized(WINWS, n) && es[1] == Sized(PROVENANCE, n);
    assert es[2] == Sized(CATALOG, n) && es[3] == Sized(MANIFEST, n);
    assert EachOk(es, limits);
    assert WINWS[0] == 'b' && PROVENANCE[0] == 'p' && CATALOG[0] == 's' && MANIFEST[0] == 'r';
    assert Distinct(es);
    assert "strategies/" <= CATALOG;
    assert Lower(es[0].path) == "bin/winws.exe" && Lower(es[1].path) == "provenance.json";
    assert "strategies/" <= Lower(es[2].path) && Lower(es[3].path) == MANIFEST;
    assert Mandatory(es);
  }

  /** The mandatory files are four. */
  lemma MandatoryAreFour(es: seq<Entry>)
    requires Mandatory(es) && Distinct(es)
    ensures |es| >= 4
  {
    hide Lower;
    var i :| 0 <= i < |es| && Lower(es[i].path) == "bin/winws.exe";
    var j :| 0 <= j < |es| && Lower(es[j].path) == "provenance.json";
    var k :| 0 <= k < |es| && "strategies/" <= Lower(es[k].path);
    var l :| 0 <= l < |es| && Lower(es[l].path) == MANIFEST;
    assert Lower(es[i].path)[0] == 'b' && Lower(es[j].path)[0] == 'p';
    assert Lower(es[k].path)[0] == 's' && Lower(es[l].path)[0] == 'r';
    assert i != j && i != k && i != l && j != k && j != l && k != l;
  }

  lemma AcceptableAreFour(es: seq<Entry>, limits: Limits)
    requires Widths(limits)
    ensures Acceptable(es, limits) ==> 4 <= limits.maxFiles
  {
    hide EntryOk, Running, Distinct, Mandatory;
    if Acceptable(es, limits) { MandatoryAreFour(es); }
  }

  /** A list that the validation accepts stays within the limit on the whole in true arithmetic, if
      and only if the limit on a file does, or so few files are allowed that none is accepted. */
  lemma AcceptedTotalsExactly(limits: Limits)
    requires Widths(limits)
    ensures (forall es | Acceptable(es, limits) :: TotalSize(es) <= limits.maxTotalBytes)
       <==> limits.maxFiles < 4 || limits.maxFileBytes <= limits.maxTotalBytes
  {
    hide EntryOk, Running, TotalSize, Distinct, Mandatory;
    if limits.maxFiles < 4 {
      forall es ensures !Acceptable(es, limits) { AcceptableAreFour(es, limits); }
    } else if limits.maxFileBytes <= limits.maxTotalBytes {
      forall es | Acceptable(es, limits) ensures TotalSize(es) <= limits.maxTotalBytes { RunningExact(es, limits); }
    } else {
      WrapUnnoticed(limits);
      assert Acceptable(FourFiles(limits), limits);
    }
  }
}
