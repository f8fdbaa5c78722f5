/** Which files are update packages, read off the bytes of the file. */
module PackageFormat {
  import opened Texts
  import opened UpdatePackage
  import opened PackageFile
  import opened PackagePaths
  import Json
  import JsonExact
  import JsonValues
  import Utf8
  import Versions

  // ---- the format ---------------------------------------------------------------------------------

  /** The number that the bytes of a text are, the low one first. */
  function LittleEndian(s: string): nat {
    if s == "" then 0 else Utf8.Byte(s[0]) % 256 + 256 * LittleEndian(s[1..])
  }

  const ITEM_KEYS: set<string> := {"path", "sha256", "type", "size", "offset"}

  const ROOT_KEYS: set<string> :=
    {"schema", "payload_version", "provider", "payload_schema", "strategy_schema", "files"}

  /** A listed file: an object of five members. */
  predicate Lists(item: Json.Value, e: Entry, offset: nat) {
    && item.Obj? && item.members.Keys == ITEM_KEYS
    && item.members["path"] == Json.Str(e.path) && item.members["sha256"] == Json.Str(e.sha256)
    && (if e.kind.Regular? then item.members["type"] == Json.Str("file")
        else item.members["type"].Str? && item.members["type"].s != "file")
    && JsonValues.Numeral(item.members["size"], e.size) && JsonValues.Numeral(item.members["offset"], offset)
  }

  /** The list of files: each offset is the total of the sizes before it, in 64 bits. */
  predicate Listing(items: seq<Json.Value>, es: seq<Entry>) {
    |items| == |es| && forall k | 0 <= k < |es| :: Lists(items[k], es[k], TotalSize(es[..k]) % TWO64)
  }

  /** The header object of a package. */
  predicate Describes(root: map<string, Json.Value>, p: Package) {
    && root.Keys == ROOT_KEYS && JsonValues.Numeral(root["schema"], 1)
    && root["payload_version"] == Json.Str(p.payloadVersion) && Versions.Parsed(p.payloadVersion).Some?
    && root["provider"] == Json.Str(p.provider)
    && JsonValues.Numeral(root["payload_schema"], p.payloadSchema) && 1 <= p.payloadSchema <= 1000
    && JsonValues.Numeral(root["strategy_schema"], p.strategySchema) && 1 <= p.strategySchema <= 1000
    && root["files"].Arr? && Listing(root["files"].items, p.entries)
  }

  /** The file begins with the magic, the size of the header and the header, which is a JSON text. */
  ghost predicate Framed(file: string, header: string, root: map<string, Json.Value>, limits: Limits) {
    && 1 <= |header| <= 1048576 && 12 + |header| <= |file| <= (limits.maxTotalBytes + 1048576) % TWO64
    && file[..8] == "CBPKG1\r\n" && LittleEndian(file[8..12]) == |header| && file[12..12 + |header|] == header
    && JsonExact.Derives(header, Json.Options(1048576, 12, limits.maxFiles * 8 + 32), Json.Obj(root))
  }

  /** 64 hexadecimal digits in lower case. */
  predicate IsHash(s: string) {
    |s| == 64 && forall i | 0 <= i < 64 :: 0x30 <= s[i] as nat <= 0x39 || 0x61 <= s[i] as nat <= 0x66
  }

  ghost predicate SoundEntry(e: Entry, limits: Limits) {
    e.kind.Regular? && Packaged(e.path) && 1 <= e.size <= limits.maxFileBytes && IsHash(e.sha256)
  }

  predicate HasFile(es: seq<Entry>, folded: string) { exists i | 0 <= i < |es| :: Lower(es[i].path) == folded }

  /** Before the k-th entry the total, in 64 bits, is within what the limit leaves for it. */
  predicate Room(es: seq<Entry>, maxTotal: nat, k: nat)
    requires k < |es| && es[k].size < TWO64
  {
    TotalSize(es[..k]) % TWO64 <= (maxTotal + TWO64 - es[k].size) % TWO64
  }

  /** As many entries as allowed, each sound, no two the same up to case, with the four mandatory
      files, and with room for each. */
  ghost predicate Sound(es: seq<Entry>, limits: Limits) {
    && 1 <= |es| <= limits.maxFiles && (forall i | 0 <= i < |es| :: SoundEntry(es[i], limits) && es[i].size < TWO64)
    && (forall i, j | 0 <= i < j < |es| :: Lower(es[i].path) != Lower(es[j].path))
    && (forall k | 0 <= k < |es| :: Room(es, limits.maxTotalBytes, k))
    && HasFile(es, "bin/winws.exe") && HasFile(es, "provenance.json") && HasFile(es, "runtime-manifest.json")
    && exists i | 0 <= i < |es| :: "strategies/" <= Lower(es[i].path)
  }

  /** The file is package `p`: framed, described, with sound entries, and their contents are the rest
      of it. */
  ghost predicate Packs(file: string, header: string, root: map<string, Json.Value>, limits: Limits, p: Package)
    requires limits.maxTotalBytes < TWO64
  {
    && Framed(file, header, root, limits) && Describes(root, p) && Sound(p.entries, limits)
    && p.dataOffset == 12 + |header| && (p.dataOffset + TotalSize(p.entries)) % TWO64 == |file|
    && p.manifestIndex < |p.entries| && Lower(p.entries[p.manifestIndex].path) == "runtime-manifest.json"
  }

  // ---- the framing ---------------------------------------------------------------------------------

  lemma SizeIsLittleEndian(file: string)
    requires |file| >= 12
    ensures HeaderSize(file) == LittleEndian(file[8..12])
  {
    var s := file[8..12];
    assert s[1..][1..] == s[2..] && s[2..][1..] == s[3..] && s[3..][1..] == "";
    assert LittleEndian(s[3..]) == Utf8.Byte(s[3]) % 256;
    assert LittleEndian(s[2..]) == Utf8.Byte(s[2]) % 256 + 256 * LittleEndian(s[3..]);
    assert LittleEndian(s[1..]) == Utf8.Byte(s[1]) % 256 + 256 * LittleEndian(s[2..]);
  }

  lemma HeaderExactly(file: string, limits: Limits, root: map<string, Json.Value>, size: nat)
    ensures Header(file, limits) == Some((root, size)) <==>
            |root| == 6 && 12 + size <= |file| && Framed(file, file[12..12 + size], root, limits)
  {
    hide Json.Parse, JsonExact.Derives, LittleEndian, HeaderSize;
    if |file| >= 12 {
      SizeIsLittleEndian(file);
      var n := HeaderSize(file);
      if 12 + n <= |file| {
        JsonExact.ParseExact(file[12..12 + n], HeaderLimits(limits), Json.Obj(root));
      }
    }
  }

  // ---- the members -----------------------------------------------------------------------------------

  lemma KeyCounts()
    ensures |ITEM_KEYS| == 5 && |ROOT_KEYS| == 6
  {
    hide ITEM_KEYS, ROOT_KEYS;
    ItemKeyCount();
    RootKeyCount();
  }

  lemma ItemKeyCount()
    ensures |ITEM_KEYS| == 5
  {
    ItemKeysDiffer();
    var some := {"path", "sha256", "type"};
    assert |some| == 3;
    assert ITEM_KEYS == some + {"size"} + {"offset"};
  }

  lemma RootKeyCount()
    ensures |ROOT_KEYS| == 6
  {
    RootKeysDiffer();
    var some := {"schema", "payload_version", "provider"};
    assert |some| == 3;
    assert ROOT_KEYS == some + {"payload_schema"} + {"strategy_schema"} + {"files"};
  }

  lemma ItemKeysDiffer()
    ensures "path" != "sha256" && "path" != "type" && "path" != "size" && "path" != "offset" && "sha256" != "type"
    ensures "sha256" != "size" && "sha256" != "offset" && "type" != "size" && "type" != "offset" && "size" != "offset"
  {
    assert "path"[0] == 'p' && "sha256"[1] == 'h' && "type"[0] == 't' && "size"[1] == 'i' && "offset"[0] == 'o';
  }

  lemma RootKeysDiffer()
    ensures "schema" != "payload_version" && "schema" != "provider" && "schema" != "payload_schema"
    ensures "schema" != "strategy_schema" && "schema" != "files" && "payload_version" != "provider"
    ensures "payload_version" != "payload_schema" && "payload_version" != "strategy_schema"
    ensures "payload_version" != "files" && "provider" != "payload_schema" && "provider" != "strategy_schema"
    ensures "provider" != "files" && "payload_schema" != "strategy_schema" && "payload_schema" != "files"
    ensures "strategy_schema" != "files"
  {
    assert "schema"[1] == 'c' && "payload_version"[8] == 'v' && "provider"[1] == 'r' && "payload_schema"[8] == 's';
    assert "strategy_schema"[1] == 't' && "files"[0] == 'f';
  }

  lemma NumberExactly(m: map<string, Json.Value>, key: string, k: nat)
    ensures NumberAt(m, key) == Some(k) <==> key in m && JsonValues.Numeral(m[key], k)
  {
    if key in m { JsonValues.NumeralExactly(m[key], k); }
  }

  lemma NumberIn(m: map<string, Json.Value>, key: string)
    ensures NumberAt(m, key).Some? ==> key in m
  {}

  lemma ItemExactly(item: Json.Value, e: Entry, offset: nat)
    ensures ItemOf(item) == Some((e, offset)) <==> Lists(item, e, offset)
  {
    hide JsonValues.Numeral, NumberAt;
    KeyCounts();
    if item.Obj? {
      var m := item.members;
      NumberExactly(m, "size", e.size);
      NumberExactly(m, "offset", offset);
      if ItemOf(item) == Some((e, offset)) { JsonValues.SameKeys(ITEM_KEYS, m); }
      if m.Keys == ITEM_KEYS { assert |m| == |m.Keys|; }
    }
  }

  // ---- the list of files -----------------------------------------------------------------------------

  lemma {:induction false} RunningIsTotal(es: seq<Entry>, maxTotal: nat)
    requires maxTotal < TWO64 && forall i | 0 <= i < |es| :: es[i].size < TWO64
    ensures Running(es, maxTotal).Some? ==> Running(es, maxTotal).value == TotalSize(es) % TWO64
  {
    if es != [] {
      var before := TotalSize(es[..|es| - 1]);
      RunningIsTotal(es[..|es| - 1], maxTotal);
      ModAdd(before, es[|es| - 1].size);
    }
  }

  lemma ModAdd(a: nat, b: nat)
    ensures (a % TWO64 + b) % TWO64 == (a + b) % TWO64
  {}

  lemma ListingSnoc(items: seq<Json.Value>, es: seq<Entry>)
    requires items != [] && |items| == |es|
    ensures var n := |es| - 1;
            Listing(items, es) <==>
            Listing(items[..n], es[..n]) && Lists(items[n], es[n], TotalSize(es[..n]) % TWO64)
  {
    hide Lists, TotalSize;
    var n := |es| - 1;
    assert forall k | 0 <= k < n :: es[..n][..k] == es[..k] && items[..n][k] == items[k] && es[..n][k] == es[k];
  }

  /** The scan gives exactly these entries. */
  predicate Scanned(items: seq<Json.Value>, maxTotal: nat, es: seq<Entry>)
    requires maxTotal < TWO64
  {
    Scan(items, maxTotal).Some? && Scan(items, maxTotal).value.0 == es
  }

  /** They are listed, and their running total passes its checks. */
  predicate ListedRunning(items: seq<Json.Value>, maxTotal: nat, es: seq<Entry>)
    requires maxTotal < TWO64
  {
    Listing(items, es) && (forall i | 0 <= i < |es| :: es[i].size < TWO64) && Running(es, maxTotal).Some?
  }

  lemma ScannedSnoc(items: seq<Json.Value>, maxTotal: nat, es: seq<Entry>)
    requires maxTotal < TWO64 && items != [] && |es| == |items|
    ensures var n := |es| - 1;
            Scanned(items, maxTotal, es) <==>
            Scanned(items[..n], maxTotal, es[..n])
            && var expected := Scan(items[..n], maxTotal).value.1;
               ItemOf(items[n]) == Some((es[n], expected)) && es[n].size < TWO64
               && expected <= Sub64(maxTotal, es[n].size)
  {
    hide ItemOf;
    var n := |es| - 1;
    assert es == es[..n] + [es[n]];
    if Scan(items, maxTotal).Some? {
      var entries := Scan(items, maxTotal).value.0;
      assert entries == Scan(items[..n], maxTotal).value.0 + [entries[n]];
      assert entries[..n] == Scan(items[..n], maxTotal).value.0;
    }
  }

  lemma RunningSnoc(es: seq<Entry>, maxTotal: nat)
    requires maxTotal < TWO64 && es != [] && forall i | 0 <= i < |es| :: es[i].size < TWO64
    ensures var before := Running(es[..|es| - 1], maxTotal);
            Running(es, maxTotal).Some? <==> before.Some? && before.value <= Sub64(maxTotal, es[|es| - 1].size)
  {}

  lemma ListedSnoc(items: seq<Json.Value>, maxTotal: nat, es: seq<Entry>)
    requires maxTotal < TWO64 && items != [] && |es| == |items|
    ensures var n := |es| - 1;
            ListedRunning(items, maxTotal, es) <==>
            ListedRunning(items[..n], maxTotal, es[..n])
            && Lists(items[n], es[n], TotalSize(es[..n]) % TWO64) && es[n].size < TWO64
            && Running(es[..n], maxTotal).value <= Sub64(maxTotal, es[n].size)
  {
    hide Lists, TotalSize, Listing;
    ListingSnoc(items, es);
    var n := |es| - 1;
    var front := es[..n];
    assert forall i | 0 <= i < n :: front[i] == es[i];
    if (forall i | 0 <= i < n :: front[i].size < TWO64) && es[n].size < TWO64 {
      assert forall i | 0 <= i <= n :: es[i].size < TWO64;
      RunningSnoc(es, maxTotal);
    }
  }

  lemma ExpectedIs(items: seq<Json.Value>, maxTotal: nat, es: seq<Entry>)
    requires maxTotal < TWO64 && Scanned(items, maxTotal, es) && ListedRunning(items, maxTotal, es)
    ensures Scan(items, maxTotal).value.1 == Running(es, maxTotal).value == TotalSize(es) % TWO64
  {
    hide Scan, Listing, Running;
    ScanIsRunning(items, maxTotal);
    RunningIsTotal(es, maxTotal);
  }

  lemma ScanEnds(items: seq<Json.Value>, maxTotal: nat, es: seq<Entry>)
    requires maxTotal < TWO64 && (items == [] || |es| != |items|)
    ensures Scanned(items, maxTotal, es) <==> ListedRunning(items, maxTotal, es)
  {
    hide Lists, ItemOf, TotalSize;
  }

  lemma {:induction false} ScanExactly(items: seq<Json.Value>, maxTotal: nat, es: seq<Entry>)
    requires maxTotal < TWO64
    ensures Scanned(items, maxTotal, es) <==> ListedRunning(items, maxTotal, es)
    decreases |items|
  {
    hide *;
    if items == [] || |es| != |items| {
      ScanEnds(items, maxTotal, es);
    } else {
      var n := |items| - 1;
      var front, last := es[..n], es[n];
      ScanExactly(items[..n], maxTotal, front);
      ScannedSnoc(items, maxTotal, es);
      ListedSnoc(items, maxTotal, es);
      if Scanned(items[..n], maxTotal, front) {
        ExpectedIs(items[..n], maxTotal, front);
        ItemExactly(items[n], last, TotalSize(front) % TWO64);
      }
    }
  }

  // ---- the manifest ----------------------------------------------------------------------------------

  lemma {:induction false} ManifestFound(es: seq<Entry>, n: nat, i: nat)
    requires i < n <= |es| && IsManifest(es[i])
    ensures ManifestIndex(es, n) < n && IsManifest(es[ManifestIndex(es, n)])
    decreases n
  {
    hide IsManifest;
    if !IsManifest(es[n - 1]) { ManifestFound(es, n - 1, i); }
  }

  /** Acceptable entries hold the runtime manifest once. */
  lemma ManifestExactly(es: seq<Entry>, limits: Limits, i: nat)
    requires limits.maxTotalBytes < TWO64 && Acceptable(es, limits) && i < |es|
    ensures ManifestIndex(es, |es|) < |es|
    ensures ManifestIndex(es, |es|) == i <==> Lower(es[i].path) == "runtime-manifest.json"
  {
    hide SafePath, IsSha256, Running, ManifestIndex;
    var j :| 0 <= j < |es| && Lower(es[j].path) == MANIFEST;
    ManifestFound(es, |es|, j);
  }

  // ---- sound entries -----------------------------------------------------------------------------------

  lemma HashExactly(s: string)
    ensures IsSha256(s) <==> IsHash(s)
  {
    forall c: char ensures (IsDigit(c) || 'a' <= c <= 'f') <==> (0x30 <= c as nat <= 0x39 || 0x61 <= c as nat <= 0x66) {}
  }

  lemma EntryExactly(e: Entry, limits: Limits)
    ensures EntryOk(e, limits) <==> SoundEntry(e, limits) && e.size < TWO64
  {
    hide SafePath, Packaged, IsSha256, IsHash;
    PathExactly(e.path);
    HashExactly(e.sha256);
  }

  lemma {:induction false} RunningExactly(es: seq<Entry>, maxTotal: nat)
    requires maxTotal < TWO64 && forall i | 0 <= i < |es| :: es[i].size < TWO64
    ensures Running(es, maxTotal).Some? <==> forall k | 0 <= k < |es| :: Room(es, maxTotal, k)
  {
    if es != [] {
      var n := |es| - 1;
      var front := es[..n];
      assert forall k | 0 <= k < n :: front[k] == es[k] && front[..k] == es[..k];
      assert forall k | 0 <= k < n :: Room(front, maxTotal, k) == Room(es, maxTotal, k);
      RunningExactly(front, maxTotal);
      if Running(front, maxTotal).Some? { RoomExactly(es, maxTotal); }
      hide Room, Running, Sub64;
      RunningSnoc(es, maxTotal);
    }
  }

  lemma RoomExactly(es: seq<Entry>, maxTotal: nat)
    requires maxTotal < TWO64 && es != [] && forall i | 0 <= i < |es| :: es[i].size < TWO64
    requires Running(es[..|es| - 1], maxTotal).Some?
    ensures Room(es, maxTotal, |es| - 1) <==> Running(es[..|es| - 1], maxTotal).value <= Sub64(maxTotal, es[|es| - 1].size)
  {
    hide TotalSize, Running;
    RunningIsTotal(es[..|es| - 1], maxTotal);
    SubExactly(maxTotal, es[|es| - 1].size);
  }

  lemma SubExactly(a: nat, b: nat)
    requires a < TWO64 && b < TWO64
    ensures Sub64(a, b) == (a + TWO64 - b) % TWO64
  {}

  lemma SoundExactly(es: seq<Entry>, limits: Limits)
    requires limits.maxTotalBytes < TWO64
    ensures Acceptable(es, limits) <==> Sound(es, limits)
  {
    hide EntryOk, SoundEntry, Running, TotalSize, Lower;
    forall i | 0 <= i < |es| ensures EntryOk(es[i], limits) <==> SoundEntry(es[i], limits) && es[i].size < TWO64 {
      EntryExactly(es[i], limits);
    }
    EachOkSizes(es, limits);
    if forall i | 0 <= i < |es| :: es[i].size < TWO64 { RunningExactly(es, limits.maxTotalBytes); }
  }

  // ---- the theorem -------------------------------------------------------------------------------------

  /** Everything the header object must be, apart from its framing. */
  lemma RootExactly(root: map<string, Json.Value>, p: Package, maxTotal: nat)
    requires maxTotal < TWO64
    ensures (|root| == 6 && RootOk(root) && Scanned(ItemsOf(root).value, maxTotal, p.entries)
             && TextAt(root, "payload_version") == Some(p.payloadVersion) && TextAt(root, "provider") == Some(p.provider)
             && NumberAt(root, "payload_schema") == Some(p.payloadSchema)
             && NumberAt(root, "strategy_schema") == Some(p.strategySchema))
            <==> Describes(root, p) && Running64(p.entries, maxTotal)
  {
    hide JsonValues.Numeral, NumberAt, Scanned, Listing, Versions.Parsed;
    KeyCounts();
    NumberExactly(root, "schema", 1);
    NumberExactly(root, "payload_schema", p.payloadSchema);
    NumberExactly(root, "strategy_schema", p.strategySchema);
    if "files" in root && root["files"].Arr? { ScanExactly(root["files"].items, maxTotal, p.entries); }
    if |root| == 6 && RootOk(root) {
      NumberIn(root, "schema");
      NumberIn(root, "payload_schema");
      NumberIn(root, "strategy_schema");
      JsonValues.SameKeys(ROOT_KEYS, root);
    }
    if root.Keys == ROOT_KEYS { assert |root| == |root.Keys|; }
  }

  /** The running total passes its checks. */
  predicate Running64(es: seq<Entry>, maxTotal: nat)
    requires maxTotal < TWO64
  {
    (forall i | 0 <= i < |es| :: es[i].size < TWO64) && Running(es, maxTotal).Some?
  }

  /** A file is accepted exactly when it is a package, and the fields that are read are those of the
      package. */
  lemma ParsedExactly(file: string, limits: Limits, p: Package)
    requires limits.maxTotalBytes < TWO64
    ensures Parsed(file, limits) == Some(p) <==>
            exists header: string, root: map<string, Json.Value> :: Packs(file, header, root, limits, p)
  {
    hide Header, Framed, Describes, Acceptable, Sound, Scan, RootOk, ManifestIndex;
    if Parsed(file, limits) == Some(p) {
      var root, size := Header(file, limits).value.0, Header(file, limits).value.1;
      HeaderExactly(file, limits, root, size);
      ParsedPacks(file, limits, p, root, size);
    }
    if header: string, root: map<string, Json.Value> :| Packs(file, header, root, limits, p) {
      PacksParsed(file, limits, p, root, header);
    }
  }

  /** The parser's view of a package. */
  lemma ParsedMeans(file: string, limits: Limits, p: Package, root: map<string, Json.Value>, size: nat)
    requires limits.maxTotalBytes < TWO64 && Header(file, limits) == Some((root, size))
    ensures Parsed(file, limits) == Some(p) <==>
            && RootOk(root) && Scanned(ItemsOf(root).value, limits.maxTotalBytes, p.entries)
            && TextAt(root, "payload_version") == Some(p.payloadVersion) && TextAt(root, "provider") == Some(p.provider)
            && NumberAt(root, "payload_schema") == Some(p.payloadSchema)
            && NumberAt(root, "strategy_schema") == Some(p.strategySchema)
            && Acceptable(p.entries, limits) && p.dataOffset == 12 + size
            && p.manifestIndex == ManifestIndex(p.entries, |p.entries|) < |p.entries|
            && Add64(12 + size, Scan(ItemsOf(root).value, limits.maxTotalBytes).value.1) == |file|
  {
    hide Header, Acceptable, ManifestIndex, Scan, NumberAt, Add64, RootOk, ItemsOf, TextAt;
    if RootOk(root) { RootMeans(root); }
  }

  lemma ScannedTotal(root: map<string, Json.Value>, limits: Limits, p: Package, size: nat)
    requires limits.maxTotalBytes < TWO64 && RootOk(root) && Acceptable(p.entries, limits)
    requires Scanned(ItemsOf(root).value, limits.maxTotalBytes, p.entries)
    ensures Scan(ItemsOf(root).value, limits.maxTotalBytes).Some?
    ensures Add64(size, Scan(ItemsOf(root).value, limits.maxTotalBytes).value.1) == (size + TotalSize(p.entries)) % TWO64
  {
    hide Acceptable, Scan, RootOk, ItemsOf, TotalSize, ListedRunning, Lists, Add64;
    RootMeans(root);
    var items := ItemsOf(root).value;
    ScanExactly(items, limits.maxTotalBytes, p.entries);
    ExpectedIs(items, limits.maxTotalBytes, p.entries);
    TotalAdds(size, TotalSize(p.entries));
  }

  lemma TotalAdds(a: nat, total: nat)
    ensures Add64(a, total % TWO64) == (a + total) % TWO64
  {
    ModAdd(total, a);
  }

  lemma ParsedPacks(file: string, limits: Limits, p: Package, root: map<string, Json.Value>, size: nat)
    requires limits.maxTotalBytes < TWO64 && Parsed(file, limits) == Some(p) && Header(file, limits) == Some((root, size))
    ensures 12 + size <= |file| && Packs(file, file[12..12 + size], root, limits, p)
  {
    hide Header, Framed, Describes, Acceptable, Sound, RootOk, ManifestIndex, Scan, Parsed, Scanned, Add64, Running64;
    hide NumberAt, TextAt, ItemsOf, Lower, TotalSize;
    SoundExactly(p.entries, limits);
    HeaderExactly(file, limits, root, size);
    ParsedMeans(file, limits, p, root, size);
    RootExactly(root, p, limits.maxTotalBytes);
    ScannedTotal(root, limits, p, p.dataOffset);
    ManifestExactly(p.entries, limits, p.manifestIndex);
  }

  lemma AcceptableRuns(es: seq<Entry>, limits: Limits)
    requires limits.maxTotalBytes < TWO64 && Acceptable(es, limits)
    ensures Running64(es, limits.maxTotalBytes)
  {
    EachOkSizes(es, limits);
  }

  lemma PacksParsed(file: string, limits: Limits, p: Package, root: map<string, Json.Value>, header: string)
    requires limits.maxTotalBytes < TWO64 && Packs(file, header, root, limits, p)
    ensures Parsed(file, limits) == Some(p)
  {
    hide Header, Framed, Describes, Acceptable, Sound, RootOk, ManifestIndex, Scan, Parsed, Scanned, Add64, Running64;
    hide NumberAt, TextAt, ItemsOf, Lower, TotalSize;
    SoundExactly(p.entries, limits);
    FramedMeans(file, header, root, limits);
    AcceptableRuns(p.entries, limits);
    RootExactly(root, p, limits.maxTotalBytes);
    DescribedSix(root, p);
    HeaderExactly(file, limits, root, |header|);
    ParsedMeans(file, limits, p, root, |header|);
    ScannedTotal(root, limits, p, p.dataOffset);
    ManifestExactly(p.entries, limits, p.manifestIndex);
  }

  lemma FramedMeans(file: string, header: string, root: map<string, Json.Value>, limits: Limits)
    requires Framed(file, header, root, limits)
    ensures 12 + |header| <= |file| && file[12..12 + |header|] == header
  {}

  lemma DescribedSix(root: map<string, Json.Value>, p: Package)
    requires Describes(root, p)
    ensures |root| == 6
  {
    hide Listing, JsonValues.Numeral;
    KeyCounts();
    assert |root| == |root.Keys|;
  }
}
