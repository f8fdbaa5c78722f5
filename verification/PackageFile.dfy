/** The update package file: a magic, a JSON header, and the contents of the entries one after
    another. */
module PackageFile {
  import opened Texts
  import opened UpdatePackage
  import Json
  import JsonParser
  import JsonValues
  import Utf8
  import Versions

  datatype Package = Package(
    payloadVersion: string,
    provider: string,
    payloadSchema: nat,
    strategySchema: nat,
    dataOffset: nat,
    manifestIndex: nat,
    entries: seq<Entry>)

  const MAGIC: string := "CBPKG1\r\n"
  const PREFIX: nat := 12
  const MEBIBYTE: nat := 1024 * 1024

  function HeaderSize(file: string): nat
    requires |file| >= PREFIX
  {
    Utf8.Byte(file[8]) % 256 + Utf8.Byte(file[9]) % 256 * 0x100
      + Utf8.Byte(file[10]) % 256 * 0x10000 + Utf8.Byte(file[11]) % 256 * 0x1000000
  }

  function HeaderLimits(limits: Limits): Json.Options { Json.Options(MEBIBYTE, 12, limits.maxFiles * 8 + 32) }

  /** The header object of a file and its size, when the framing of the file is right. */
  function Header(file: string, limits: Limits): Option<(map<string, Json.Value>, nat)> {
    if |file| < PREFIX || |file| > Add64(limits.maxTotalBytes, MEBIBYTE) || file[..8] != MAGIC then None else
    var size := HeaderSize(file);
    if size == 0 || size > MEBIBYTE || PREFIX + size > |file| then None else
    match Json.Parse(file[PREFIX..PREFIX + size], HeaderLimits(limits))
    case Some(Obj(root)) => if |root| == 6 then Some((root, size)) else None
    case _ => None
  }

  function TextAt(m: map<string, Json.Value>, key: string): Option<string> {
    if key in m && m[key].Str? then Some(m[key].s) else None
  }

  function NumberAt(m: map<string, Json.Value>, key: string): (r: Option<nat>)
    ensures r.Some? ==> r.value < TWO64
  {
    if key in m && m[key].Num? then JsonValues.AsUInt64(m[key].raw) else None
  }

  /** An entry of the header and its offset. */
  function ItemOf(item: Json.Value): (r: Option<(Entry, nat)>)
    ensures r.Some? ==> r.value.0.size < TWO64
  {
    if !item.Obj? || |item.members| != 5 then None else
    var m := item.members;
    var path, sha, kind := TextAt(m, "path"), TextAt(m, "sha256"), TextAt(m, "type");
    var size, offset := NumberAt(m, "size"), NumberAt(m, "offset");
    if path.None? || sha.None? || kind.None? || size.None? || offset.None? then None
    else Some((Entry(path.value, if kind.value == "file" then Regular else Other, size.value, sha.value), offset.value))
  }

  /** The entries of the header and the offset expected after them, as the loop keeps it in 64 bits. */
  function Scan(items: seq<Json.Value>, maxTotal: nat): (r: Option<(seq<Entry>, nat)>)
    requires maxTotal < TWO64
    ensures r.Some? ==> |r.value.0| == |items| && r.value.1 < TWO64
    ensures r.Some? ==> forall i | 0 <= i < |items| :: r.value.0[i].size < TWO64
  {
    if items == [] then Some(([], 0)) else
    var before, item := Scan(items[..|items| - 1], maxTotal), ItemOf(items[|items| - 1]);
    if before.None? || item.None? then None else
    var (entry, offset) := item.value;
    var (entries, expected) := before.value;
    if offset != expected || expected > Sub64(maxTotal, entry.size) then None
    else Some((entries + [entry], Add64(expected, entry.size)))
  }

  predicate IsManifest(e: Entry) { SafePath(e.path) && Lower(e.path) == MANIFEST }

  /** The index of the last of the first n entries that is the runtime manifest; the count of all
      of them when there is none. */
  function ManifestIndex(es: seq<Entry>, n: nat): (i: nat)
    requires n <= |es|
    ensures i < n || i == |es|
  {
    if n == 0 then |es| else if IsManifest(es[n - 1]) then n - 1 else ManifestIndex(es, n - 1)
  }

  predicate SchemaOk(n: Option<nat>) { n.Some? && 0 < n.value <= 1000 }

  function ItemsOf(root: map<string, Json.Value>): Option<seq<Json.Value>> {
    if "files" in root && root["files"].Arr? then Some(root["files"].items) else None
  }

  predicate RootOk(root: map<string, Json.Value>) {
    && NumberAt(root, "schema") == Some(1)
    && SchemaOk(NumberAt(root, "payload_schema")) && SchemaOk(NumberAt(root, "strategy_schema"))
    && TextAt(root, "payload_version").Some? && Versions.Parsed(TextAt(root, "payload_version").value).Some?
    && TextAt(root, "provider").Some? && ItemsOf(root).Some?
  }

  /** The package that a file holds. */
  function Parsed(file: string, limits: Limits): Option<Package>
    requires limits.maxTotalBytes < TWO64
  {
    match Header(file, limits)
    case None => None
    case Some(h) =>
      var (root, size) := h;
      if !RootOk(root) then None else
      match Scan(ItemsOf(root).value, limits.maxTotalBytes)
      case None => None
      case Some(s) =>
        var (entries, expected) := s;
        if !Acceptable(entries, limits) || ManifestIndex(entries, |entries|) == |entries|
           || Add64(PREFIX + size, expected) != |file| then None
        else Some(Package(TextAt(root, "payload_version").value, TextAt(root, "provider").value,
                          NumberAt(root, "payload_schema").value, NumberAt(root, "strategy_schema").value,
                          PREFIX + size, ManifestIndex(entries, |entries|), entries))
  }

  // ---- ParsePackageFile ------------------------------------------------------------------------

  /** The checks of the file's framing and the parse of its header. */
  method ReadHeader(file: string, limits: Limits) returns (r: Option<(map<string, Json.Value>, nat)>)
    requires limits.maxTotalBytes < TWO64
    ensures r == Header(file, limits)
  {
    hide Json.Parse;
    if |file| < PREFIX || |file| > Add64(limits.maxTotalBytes, MEBIBYTE) { return None; }
    if file[..8] != MAGIC { return None; }
    var size := HeaderSize(file);
    if size == 0 || size > MEBIBYTE || PREFIX + size > |file| { return None; }
    var parser := new JsonParser.Parser(file[PREFIX..PREFIX + size], HeaderLimits(limits));
    var parsed := parser.Run();
    if parsed.None? || !parsed.value.Obj? || |parsed.value.members| != 6 { return None; }
    return Some((parsed.value.members, size));
  }

  lemma ScanStays(items: seq<Json.Value>, n: nat, maxTotal: nat)
    requires maxTotal < TWO64 && n <= |items| && Scan(items[..n], maxTotal).None?
    ensures Scan(items, maxTotal).None?
    decreases |items|
  {
    hide ItemOf;
    if n == |items| {
      assert items[..n] == items;
    } else {
      assert items[..|items| - 1][..n] == items[..n];
      ScanStays(items[..|items| - 1], n, maxTotal);
    }
  }

  lemma ScanNext(items: seq<Json.Value>, i: nat, maxTotal: nat, entries: seq<Entry>, expected: nat)
    requires maxTotal < TWO64 && i < |items| && Scan(items[..i], maxTotal) == Some((entries, expected))
    ensures Scan(items[..i + 1], maxTotal)
         == match ItemOf(items[i])
            case None => None
            case Some(x) => if x.1 != expected || expected > Sub64(maxTotal, x.0.size) then None
                            else Some((entries + [x.0], Add64(expected, x.0.size)))
  {
    hide ItemOf;
    assert items[..i + 1][..i] == items[..i];
  }

  lemma ManifestSnoc(es: seq<Entry>, e: Entry, n: nat)
    requires n <= |es|
    ensures ManifestIndex(es + [e], n) == if ManifestIndex(es, n) < n then ManifestIndex(es, n) else |es| + 1
  {
    hide IsManifest;
    if n > 0 { ManifestSnoc(es, e, n - 1); }
  }

  /** The loop over the entries of the header. */
  method ScanItems(items: seq<Json.Value>, maxTotal: nat) returns (r: Option<(seq<Entry>, nat)>, manifestIndex: nat)
    requires maxTotal < TWO64
    ensures r == Scan(items, maxTotal)
    ensures r.Some? ==> manifestIndex == ManifestIndex(r.value.0, |r.value.0|)
  {
    hide Scan, ItemOf, IsManifest, Lower, SafePath;
    var entries: seq<Entry> := [];
    var expected, found: Option<nat> := 0, None;
    manifestIndex := 0;
    ScanNothing(items, maxTotal);
    for i := 0 to |items|
      invariant |entries| == i && Scan(items[..i], maxTotal) == Some((entries, expected))
      invariant ManifestIndex(entries, i) == if found.None? then i else found.value
      invariant found.Some? ==> found.value < i
    {
      ScanNext(items, i, maxTotal, entries, expected);
      var item := ItemOf(items[i]);
      if item.None? || item.value.1 != expected || expected > Sub64(maxTotal, item.value.0.size) {
        ScanStays(items, i + 1, maxTotal);
        return None, 0;
      }
      var entry := item.value.0;
      ManifestSnoc(entries, entry, i);
      entries := entries + [entry];
      var normalized := NormalizePackagePath(entry.path);
      IsManifestMeans(entry);
      if normalized.Some? && Lower(normalized.value) == Lower(MANIFEST) { found := Some(i); }
      expected := Add64(expected, entry.size);
    }
    assert items[..|items|] == items;
    manifestIndex := if found.Some? then found.value else |items|;
    r := Some((entries, expected));
  }

  lemma ScanNothing(items: seq<Json.Value>, maxTotal: nat)
    requires maxTotal < TWO64
    ensures Scan(items[..0], maxTotal) == Some(([], 0))
  {}

  lemma IsManifestMeans(e: Entry)
    ensures IsManifest(e) == (SafePath(e.path) && Lower(e.path) == Lower(MANIFEST))
  {
    assert Lower(MANIFEST) == MANIFEST;
  }

  method ParsePackageFile(file: string, limits: Limits) returns (r: Option<Package>)
    requires limits.maxTotalBytes < TWO64
    ensures r == Parsed(file, limits)
  {
    hide Header, RootOk, Scan, Acceptable, ManifestIndex;
    var header := ReadHeader(file, limits);
    if header.None? { return None; }
    var (root, size) := header.value;
    if !RootOk(root) { return None; }
    RootMeans(root);
    var scanned, manifestIndex := ScanItems(ItemsOf(root).value, limits.maxTotalBytes);
    if scanned.None? { return None; }
    var (entries, expected) := scanned.value;
    var valid := ValidatePackageEntries(entries, limits);
    if !valid || manifestIndex >= |entries| || Add64(PREFIX + size, expected) != |file| { return None; }
    r := Some(Package(TextAt(root, "payload_version").value, TextAt(root, "provider").value,
                      NumberAt(root, "payload_schema").value, NumberAt(root, "strategy_schema").value,
                      PREFIX + size, manifestIndex, entries));
  }

  lemma RootMeans(root: map<string, Json.Value>)
    requires RootOk(root)
    ensures ItemsOf(root).Some? && TextAt(root, "payload_version").Some? && TextAt(root, "provider").Some?
    ensures NumberAt(root, "payload_schema").Some? && NumberAt(root, "strategy_schema").Some?
  {}

  // ---- the entries tile the file ------------------------------------------------------------------

  /** Where the contents of entry k start, in true arithmetic. */
  function Offset(p: Package, k: nat): nat
    requires k <= |p.entries|
  {
    p.dataOffset + TotalSize(p.entries[..k])
  }

  /** The bytes that an accepted package gives to entry k. */
  function Slice(file: string, p: Package, k: nat): string
    requires k < |p.entries| && Offset(p, k) + p.entries[k].size <= |file|
  {
    file[Offset(p, k)..Offset(p, k) + p.entries[k].size]
  }

  lemma {:induction false} TotalPrefix(es: seq<Entry>, k: nat)
    requires k < |es|
    ensures TotalSize(es[..k + 1]) == TotalSize(es[..k]) + es[k].size
    ensures TotalSize(es[..k + 1]) <= TotalSize(es)
    decreases |es| - k
  {
    assert es[..k + 1][..k] == es[..k];
    if k + 1 < |es| {
      TotalPrefix(es, k + 1);
    } else {
      assert es[..k + 1] == es;
    }
  }

  /** The expected offset of the scan is the running total of the sizes. */
  lemma {:induction false} ScanIsRunning(items: seq<Json.Value>, maxTotal: nat)
    requires maxTotal < TWO64 && Scan(items, maxTotal).Some?
    ensures Running(Scan(items, maxTotal).value.0, maxTotal) == Some(Scan(items, maxTotal).value.1)
  {
    hide ItemOf;
    if items != [] {
      ScanIsRunning(items[..|items| - 1], maxTotal);
      var entries := Scan(items, maxTotal).value.0;
      assert entries[..|entries| - 1] == Scan(items[..|items| - 1], maxTotal).value.0;
    }
  }

  /** Entry k has its own bytes, directly before those of entry k + 1, within the file. */
  predicate OwnSlice(file: string, p: Package, k: nat) {
    k < |p.entries| && Offset(p, k) < Offset(p, k) + p.entries[k].size == Offset(p, k + 1) <= |file|
  }

  /** The contents of the entries of an accepted package lie one after another, each within the
      file, from the data offset exactly to the end of the file: the 64-bit arithmetic of the two
      loops never wraps around unnoticed. */
  lemma EntriesTile(file: string, limits: Limits)
    requires Sane(limits) && Parsed(file, limits).Some?
    ensures var p := Parsed(file, limits).value;
            && PREFIX < p.dataOffset && TotalSize(p.entries) <= limits.maxTotalBytes
            && Offset(p, 0) == p.dataOffset && Offset(p, |p.entries|) == |file|
            && forall k | 0 <= k < |p.entries| :: OwnSlice(file, p, k)
  {
    hide Header, RootOk, Scan, Mandatory, Distinct, Running, ManifestIndex, EntryOk, OwnSlice;
    var p := Parsed(file, limits).value;
    var root := Header(file, limits).value.0;
    RootMeans(root);
    ScanIsRunning(ItemsOf(root).value, limits.maxTotalBytes);
    RunningExact(p.entries, limits);
    HeaderFits(file, limits);
    assert p.entries[..0] == [] && p.entries[..|p.entries|] == p.entries;
    forall k | 0 <= k < |p.entries| ensures OwnSlice(file, p, k) {
      SliceFits(file, p, k, limits);
    }
  }

  lemma SliceFits(file: string, p: Package, k: nat, limits: Limits)
    requires k < |p.entries| && EachOk(p.entries, limits) && Offset(p, |p.entries|) == |file|
    ensures OwnSlice(file, p, k)
  {
    hide EntryOk;
    TotalPrefix(p.entries, k);
    SizeOk(p.entries[k], limits);
    assert p.entries[..|p.entries|] == p.entries;
  }

  /** The contents of the first n entries, put together. */
  function Contents(file: string, p: Package, n: nat): string
    requires n <= |p.entries| && forall k | 0 <= k < n :: OwnSlice(file, p, k)
  {
    if n == 0 then "" else
    assert OwnSlice(file, p, n - 1);
    Contents(file, p, n - 1) + Slice(file, p, n - 1)
  }

  /** Put together, the contents of the entries are the rest of the file after the header. */
  lemma {:induction false} ContentsAreTheFile(file: string, p: Package, n: nat)
    requires n <= |p.entries| && forall k | 0 <= k < |p.entries| :: OwnSlice(file, p, k)
    requires p.dataOffset <= |file|
    ensures p.dataOffset <= Offset(p, n) <= |file|
    ensures Contents(file, p, n) == file[p.dataOffset..Offset(p, n)]
  {
    if n == 0 {
      assert p.entries[..0] == [];
    } else {
      assert OwnSlice(file, p, n - 1);
      ContentsAreTheFile(file, p, n - 1);
    }
  }

  lemma HeaderFits(file: string, limits: Limits)
    requires Header(file, limits).Some?
    ensures 0 < Header(file, limits).value.1 && PREFIX + Header(file, limits).value.1 <= |file|
    ensures Header(file, limits).value.1 <= MEBIBYTE
  {}
}
