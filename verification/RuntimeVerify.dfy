/** `VerifyInstalledRuntime`: a runtime directory that verifies holds exactly the files of its
    manifest and the manifest itself. */
module RuntimeVerify {
  import opened Texts
  import opened RuntimeInventory
  import opened UpdatePackage
  import opened PackageExtract
  import Json
  import JsonParser
  import JsonValues
  import JsonExact
  import opened PackagePaths

  /** A file of the manifest, with its path below the runtime directory. */
  datatype RuntimeFile = RuntimeFile(path: string, size: nat, sha256: string)

  /** The bytes of the file with a folded path, if there is one. */
  type Content = string -> Option<string>

  /** The listings and the files are those of one directory. */
  ghost predicate SameDirectory(tree: Tree, content: Content) {
    forall p: string :: content(Lower(p)).Some? <==> HasFile(tree, p)
  }

  /** The tree holds a file with this path, up to case. */
  ghost predicate HasFile(tree: Tree, path: string) {
    exists parent: string, item: Item, depth: nat ::
      InTree(tree, parent, item, depth) && !item.isDirectory && Lower(Child(parent, item.name)) == Lower(path)
  }

  // ---- SafeRuntimeRelativePath --------------------------------------------------------------

  predicate AllowlistedFolded(folded: string) {
    || "bin\\" <= folded || "lists\\" <= folded
    || folded == "strategies\\catalog.json" || folded == "provenance.json" || folded == MANIFEST
  }

  predicate SafeRuntimePath(path: string) {
    && 0 < |path| <= 240 && '\\' !in path && ':' !in path && NUL !in path
    && AllSafe(Split(path, '/')) && AllowlistedFolded(Identity(path))
  }

  method SafeRuntimeRelativePath(input: string) returns (r: Option<string>)
    ensures r == if SafeRuntimePath(input) then Some(WindowsPath(input)) else None
  {
    if input == "" || |input| > 240 || '\\' in input || ':' in input || NUL in input { return None; }
    hide Split, AllSafe, Lower, WindowsPath;
    if input[0] == '/' {
      LeadingSeparator(input);
      return None;
    }
    var ok, rebuilt := RebuildPath(input);
    assert input[0..] == input;
    if !ok { return None; }
    var output := WindowsPath(rebuilt);
    if !AllowlistedFolded(Lower(output)) { return None; }
    return Some(output);
  }

  lemma LeadingSeparator(input: string)
    requires input != "" && input[0] == '/'
    ensures !AllSafe(Split(input, '/'))
  {
    FindIs(input, '/', 0);
    assert Split(input, '/')[0] == "";
  }

  // ---- the files of the manifest --------------------------------------------------------------

  /** An entry of the manifest's list. */
  function ItemOf(item: Json.Value): Option<RuntimeFile> {
    if !item.Obj? || |item.members| != 3 then None else
    var m := item.members;
    if !("path" in m && m["path"].Str? && "sha256" in m && m["sha256"].Str? && "size" in m && m["size"].Num?) then None else
    var size := JsonValues.AsUInt64(m["size"].raw);
    if size.None? || size.value == 0 || |m["sha256"].s| != 64 || m["path"].s == MANIFEST || !SafeRuntimePath(m["path"].s) then None
    else Some(RuntimeFile(WindowsPath(m["path"].s), size.value, m["sha256"].s))
  }

  /** `FileIsValid`: the file is there with its size and, up to the case of the digits, its hash. */
  predicate FileIsValid(f: RuntimeFile, content: Content, hash: string -> string) {
    var bytes := content(Lower(f.path));
    bytes.Some? && |bytes.value| == f.size && Lower(hash(bytes.value)) == Lower(f.sha256)
  }

  predicate AllValid(fs: seq<RuntimeFile>, content: Content, hash: string -> string) {
    forall i | 0 <= i < |fs| :: FileIsValid(fs[i], content, hash)
  }

  predicate NoRepeat(fs: seq<RuntimeFile>) {
    forall i, j | 0 <= i < j < |fs| :: Lower(fs[i].path) != Lower(fs[j].path)
  }

  /** The allowed paths of the walk: the manifest itself and the files of its list. */
  function Inventory(fs: seq<RuntimeFile>): seq<string> {
    [MANIFEST] + seq(|fs|, i requires 0 <= i < |fs| => fs[i].path)
  }

  /** The list of the manifest describes these files, which are all there and all different. */
  ghost predicate Describes(items: seq<Json.Value>, content: Content, hash: string -> string, fs: seq<RuntimeFile>) {
    && |fs| == |items| && (forall i | 0 <= i < |items| :: ItemOf(items[i]) == Some(fs[i]))
    && AllValid(fs, content, hash) && NoRepeat(fs)
  }

  /** The loop over the list of the manifest. */
  method VerifyFiles(items: seq<Json.Value>, content: Content, hash: string -> string)
    returns (ok: bool, files: seq<RuntimeFile>)
    ensures ok ==> Describes(items, content, hash, files)
    ensures !ok ==> forall fs :: !Describes(items, content, hash, fs)
  {
    hide ItemOf, FileIsValid, Lower;
    files := [];
    var seen := {};
    for i := 0 to |items|
      invariant |files| == i && forall k | 0 <= k < i :: ItemOf(items[k]) == Some(files[k])
      invariant AllValid(files, content, hash) && NoRepeat(files)
      invariant forall k | 0 <= k < i :: Lower(files[k].path) in seen
      invariant forall p | p in seen :: HoldsPath(files, p)
    {
      var file := ItemOf(items[i]);
      if file.None? { return false, files; }
      if Lower(file.value.path) in seen {
        RepeatedPath(items, content, hash, files, i);
        return false, files;
      }
      if !FileIsValid(file.value, content, hash) { return false, files; }
      HoldsSnoc(files, file.value);
      seen := seen + {Lower(file.value.path)};
      files := files + [file.value];
    }
    ok := true;
  }

  lemma RepeatedPath(items: seq<Json.Value>, content: Content, hash: string -> string, files: seq<RuntimeFile>, i: nat)
    requires i < |items| && |files| == i && forall k | 0 <= k < i :: ItemOf(items[k]) == Some(files[k])
    requires ItemOf(items[i]).Some? && HoldsPath(files, Lower(ItemOf(items[i]).value.path))
    ensures forall fs :: !Describes(items, content, hash, fs)
  {
    hide ItemOf, FileIsValid, Lower;
    var k :| 0 <= k < i && Lower(files[k].path) == Lower(ItemOf(items[i]).value.path);
    forall fs: seq<RuntimeFile> ensures !Describes(items, content, hash, fs) {
      if |fs| == |items| && ItemOf(items[k]) == Some(fs[k]) && ItemOf(items[i]) == Some(fs[i]) {
        assert Lower(fs[k].path) == Lower(fs[i].path);
      }
    }
  }

  predicate HoldsPath(fs: seq<RuntimeFile>, folded: string) { exists i | 0 <= i < |fs| :: Lower(fs[i].path) == folded }

  lemma HoldsSnoc(fs: seq<RuntimeFile>, f: RuntimeFile)
    ensures forall p :: HoldsPath(fs + [f], p) <==> HoldsPath(fs, p) || Lower(f.path) == p
  {
    hide Lower;
    var all := fs + [f];
    forall p ensures HoldsPath(all, p) <==> HoldsPath(fs, p) || Lower(f.path) == p {
      if HoldsPath(fs, p) {
        var i :| 0 <= i < |fs| && Lower(fs[i].path) == p;
        assert all[i] == fs[i];
      }
      if Lower(f.path) == p { assert all[|fs|] == f; }
    }
  }

  const LIMITS: Json.Options := Json.Options(1024 * 1024, 8, 4096)

  /** The mandatory files of a runtime. */
  predicate Complete(fs: seq<RuntimeFile>) {
    HoldsPath(fs, WINWS) && HoldsPath(fs, CATALOG) && HoldsPath(fs, PROVENANCE)
  }

  const WINWS: string := "bin\\winws.exe"
  const CATALOG: string := "strategies\\catalog.json"
  const PROVENANCE: string := "provenance.json"


  /** The list of files of a well-formed manifest for this version. */
  function ManifestItems(bytes: string, version: string): Option<seq<Json.Value>> {
    var parsed := Json.Parse(bytes, LIMITS);
    if parsed.None? || !parsed.value.Obj? then None else ListOf(parsed.value.members, version)
  }

  function ListOf(root: map<string, Json.Value>, version: string): Option<seq<Json.Value>> {
    if |root| != 3 then None
    else if !("schema" in root && root["schema"].Num? && JsonValues.AsUInt64(root["schema"].raw) == Some(1)) then None
    else if !("payload_version" in root && root["payload_version"] == Json.Str(version)) then None
    else if !("files" in root && root["files"].Arr? && 0 < |root["files"].items| <= 256) then None
    else Some(root["files"].items)
  }

  /** The manifest in the directory lists exactly these files, and they make a whole runtime. */
  ghost predicate Holds(version: string, content: Content, hash: string -> string, fs: seq<RuntimeFile>) {
    && content(MANIFEST).Some? && ManifestItems(content(MANIFEST).value, version).Some?
    && Describes(ManifestItems(content(MANIFEST).value, version).value, content, hash, fs) && Complete(fs)
  }

  // ---- an installed runtime, read off its manifest and its files ----------------------------------

  const LISTED_KEYS: set<string> := {"path", "sha256", "size"}
  const MANIFEST_KEYS: set<string> := {"schema", "payload_version", "files"}

  /** An object of three members lists the file. */
  predicate Listed(item: Json.Value, f: RuntimeFile) {
    && item.Obj? && item.members.Keys == LISTED_KEYS
    && item.members["path"].Str? && ListedPath(item.members["path"].s, f.path)
    && item.members["sha256"] == Json.Str(f.sha256) && |f.sha256| == 64
    && JsonValues.Numeral(item.members["size"], f.size) && f.size >= 1
  }

  /** The path of the list, with backslashes for slashes; it is not the manifest's. */
  predicate ListedPath(path: string, f: string) {
    && path != "runtime-manifest.json" && SafeRuntimePath(path)
    && |f| == |path| && forall i | 0 <= i < |f| :: f[i] == if path[i] == '/' then '\\' else path[i]
  }

  /** The file is there, with its size and, up to case, its hash. */
  ghost predicate Stored(f: RuntimeFile, content: Content, hash: string -> string) {
    exists bytes :: content(Lower(f.path)) == Some(bytes) && |bytes| == f.size && Lower(hash(bytes)) == Lower(f.sha256)
  }

  /** A JSON text of at most 1 MiB, 8 levels and 4096 values: an object of three members, with one to
      256 listed files. */
  ghost predicate IsManifest(text: string, version: string, items: seq<Json.Value>) {
    exists root: map<string, Json.Value> ::
      JsonExact.Derives(text, Json.Options(1048576, 8, 4096), Json.Obj(root)) && ManifestRoot(root, version, items)
  }

  predicate ManifestRoot(root: map<string, Json.Value>, version: string, items: seq<Json.Value>) {
    && root.Keys == MANIFEST_KEYS && JsonValues.Numeral(root["schema"], 1)
    && root["payload_version"] == Json.Str(version) && root["files"] == Json.Arr(items) && 1 <= |items| <= 256
  }

  predicate HasPath(fs: seq<RuntimeFile>, folded: string) { exists i | 0 <= i < |fs| :: Lower(fs[i].path) == folded }

  /** The directory holds a manifest for this version that lists exactly these files, all of them are
      there and different, and the three that a runtime needs are among them. */
  ghost predicate Installed(version: string, content: Content, hash: string -> string, fs: seq<RuntimeFile>) {
    && content("runtime-manifest.json").Some?
    && (exists items: seq<Json.Value> ::
          IsManifest(content("runtime-manifest.json").value, version, items) && |items| == |fs|
          && forall i | 0 <= i < |fs| :: Listed(items[i], fs[i]) && Stored(fs[i], content, hash))
    && (forall i, j | 0 <= i < j < |fs| :: Lower(fs[i].path) != Lower(fs[j].path))
    && HasPath(fs, "bin\\winws.exe") && HasPath(fs, "strategies\\catalog.json") && HasPath(fs, "provenance.json")
  }

  lemma RuntimeKeyCounts()
    ensures |LISTED_KEYS| == 3 && |MANIFEST_KEYS| == 3
  {
    assert "path"[0] == 'p' && "sha256"[1] == 'h' && "size"[1] == 'i';
    assert "schema"[0] == 's' && "payload_version"[0] == 'p' && "files"[0] == 'f';
    assert LISTED_KEYS == {"path"} + {"sha256"} + {"size"};
    assert MANIFEST_KEYS == {"schema"} + {"payload_version"} + {"files"};
  }

  lemma ListedPathExactly(path: string, f: string)
    ensures ListedPath(path, f) <==> path != "runtime-manifest.json" && SafeRuntimePath(path) && f == WindowsPath(path)
  {
    hide SafeRuntimePath;
  }

  lemma ListedExactly(item: Json.Value, f: RuntimeFile)
    ensures ItemOf(item) == Some(f) <==> Listed(item, f)
  {
    hide SafeRuntimePath, ListedPath, JsonValues.Numeral, JsonValues.AsUInt64, LISTED_KEYS, WindowsPath;
    RuntimeKeyCounts();
    ListedKeyMembers();
    if item.Obj? {
      var m := item.members;
      if "path" in m && m["path"].Str? { ListedPathExactly(m["path"].s, f.path); }
      if "size" in m { JsonValues.NumeralExactly(m["size"], f.size); }
      if ItemOf(item) == Some(f) { JsonValues.SameKeys(LISTED_KEYS, m); }
      if m.Keys == LISTED_KEYS { assert |m| == |m.Keys|; }
    }
  }

  lemma ListedKeyMembers()
    ensures forall k :: k in LISTED_KEYS <==> k == "path" || k == "sha256" || k == "size"
    ensures forall k :: k in MANIFEST_KEYS <==> k == "schema" || k == "payload_version" || k == "files"
  {}

  lemma StoredExactly(f: RuntimeFile, content: Content, hash: string -> string)
    ensures FileIsValid(f, content, hash) <==> Stored(f, content, hash)
  {
    hide Lower;
  }

  lemma ManifestExactly(text: string, version: string, items: seq<Json.Value>)
    ensures ManifestItems(text, version) == Some(items) <==> IsManifest(text, version, items)
  {
    hide Json.Parse, JsonExact.Derives, ManifestRoot, ListOf;
    forall root: map<string, Json.Value>
      ensures Json.Parse(text, LIMITS) == Some(Json.Obj(root)) <==>
              JsonExact.Derives(text, Json.Options(1048576, 8, 4096), Json.Obj(root))
      ensures ListOf(root, version) == Some(items) <==> ManifestRoot(root, version, items)
    {
      JsonExact.ParseExact(text, LIMITS, Json.Obj(root));
      ListExactly(root, version, items);
    }
  }

  lemma ListExactly(root: map<string, Json.Value>, version: string, items: seq<Json.Value>)
    ensures ListOf(root, version) == Some(items) <==> ManifestRoot(root, version, items)
  {
    hide JsonValues.Numeral, JsonValues.AsUInt64, MANIFEST_KEYS;
    RuntimeKeyCounts();
    ListedKeyMembers();
    if "schema" in root { JsonValues.NumeralExactly(root["schema"], 1); }
    if ListOf(root, version) == Some(items) { JsonValues.SameKeys(MANIFEST_KEYS, root); }
    if root.Keys == MANIFEST_KEYS { assert |root| == |root.Keys|; }
  }

  /** What the checks establish is an installed runtime in this sense, and no more. */
  lemma HoldsExactly(version: string, content: Content, hash: string -> string, fs: seq<RuntimeFile>)
    ensures Holds(version, content, hash, fs) <==> Installed(version, content, hash, fs)
  {
    hide ManifestItems, IsManifest, ItemOf, Listed, FileIsValid, Stored, Lower;
    forall item: Json.Value, f: RuntimeFile ensures ItemOf(item) == Some(f) <==> Listed(item, f) { ListedExactly(item, f); }
    forall f: RuntimeFile ensures FileIsValid(f, content, hash) <==> Stored(f, content, hash) { StoredExactly(f, content, hash); }
    if content(MANIFEST).Some? {
      forall items: seq<Json.Value>
        ensures ManifestItems(content(MANIFEST).value, version) == Some(items) <==>
                IsManifest(content(MANIFEST).value, version, items)
      {
        ManifestExactly(content(MANIFEST).value, version, items);
      }
    }
  }

  /** The checks of an installed runtime.  The ACLs, the provenance record and the strategy
      catalogue are outcomes.  When the checks pass, the files in the directory are exactly the
      files of the manifest, each with its size and hash, and the manifest; there is no other
      object, no link and no repeated path.  When they fail, an outcome failed, the directory holds
      more than 1024 objects, or no list of files makes it such a runtime. */
  method VerifyInstalledRuntime(version: string, tree: Tree, content: Content, hash: string -> string,
                                rootValid: bool, provenance: bool, catalog: bool)
    returns (ok: bool, files: seq<RuntimeFile>)
    ensures ok ==> Installed(version, content, hash, files) && !Faulty(tree, Inventory(files))
    ensures ok ==> rootValid && provenance && catalog && !MoreThan(tree, 1024)
    ensures ok && SameDirectory(tree, content) ==>
              forall p: string :: HasFile(tree, p) <==> AllowedFile(p, Inventory(files))
    ensures !ok && rootValid && provenance && catalog && !MoreThan(tree, 1024) ==>
              forall fs :: Installed(version, content, hash, fs) ==> Faulty(tree, Inventory(fs))
  {
    ok, files := VerifyByManifest(version, tree, content, hash, rootValid, provenance, catalog);
    hide Holds, Installed, Faulty, MoreThan, SameDirectory, HasFile, Inventory;
    forall fs ensures Holds(version, content, hash, fs) <==> Installed(version, content, hash, fs) {
      HoldsExactly(version, content, hash, fs);
    }
  }

  method VerifyByManifest(version: string, tree: Tree, content: Content, hash: string -> string,
                          rootValid: bool, provenance: bool, catalog: bool)
    returns (ok: bool, files: seq<RuntimeFile>)
    ensures ok ==> Holds(version, content, hash, files) && !Faulty(tree, Inventory(files))
    ensures ok ==> rootValid && provenance && catalog && !MoreThan(tree, 1024)
    ensures ok && SameDirectory(tree, content) ==>
              forall p: string :: HasFile(tree, p) <==> AllowedFile(p, Inventory(files))
    ensures !ok && rootValid && provenance && catalog && !MoreThan(tree, 1024) ==>
              forall fs :: Holds(version, content, hash, fs) ==> Faulty(tree, Inventory(fs))
  {
    hide Json.Parse, MoreThan, Describes, Faulty, Lower, HasFile, SameDirectory, HoldsPath, ListOf, Complete;
    files := [];
    var bytes := content(MANIFEST);
    if bytes.None? { return false, []; }
    var parser := new JsonParser.Parser(bytes.value, LIMITS);
    var parsed := parser.Run();
    if parsed.None? || !parsed.value.Obj? { return false, []; }
    var list := ListOf(parsed.value.members, version);
    if list.None? { return false, []; }
    ok, files := VerifyFiles(list.value, content, hash);
    if !ok { return; }
    forall fs | Describes(list.value, content, hash, fs) ensures fs == files {
      DescribedOnce(list.value, content, hash, fs, files);
    }
    ok := ValidateRuntimeInventory(tree, rootValid, Inventory(files));
    if !ok { return; }
    var complete := HoldsAll(files);
    if !complete || !provenance || !catalog { return false, files; }
    if SameDirectory(tree, content) {
      DescribedAreValid(list.value, content, hash, files);
      ExactlyTheInventory(tree, content, hash, files);
    }
  }

  method HoldsAll(fs: seq<RuntimeFile>) returns (ok: bool)
    ensures ok == Complete(fs)
  {
    hide Lower;
    var winws, catalog, provenance := false, false, false;
    for i := 0 to |fs|
      invariant winws == HoldsPath(fs[..i], WINWS)
      invariant catalog == HoldsPath(fs[..i], CATALOG)
      invariant provenance == HoldsPath(fs[..i], PROVENANCE)
    {
      HoldsSnoc(fs[..i], fs[i]);
      assert fs[..i + 1] == fs[..i] + [fs[i]];
      winws := winws || Lower(fs[i].path) == WINWS;
      catalog := catalog || Lower(fs[i].path) == CATALOG;
      provenance := provenance || Lower(fs[i].path) == PROVENANCE;
    }
    assert fs[..|fs|] == fs;
    ok := winws && catalog && provenance;
  }

  lemma DescribedOnce(items: seq<Json.Value>, content: Content, hash: string -> string, a: seq<RuntimeFile>, b: seq<RuntimeFile>)
    requires Describes(items, content, hash, a) && Describes(items, content, hash, b)
    ensures a == b
  {
    hide ItemOf, AllValid, NoRepeat;
    forall i | 0 <= i < |a| ensures a[i] == b[i] { assert ItemOf(items[i]) == Some(a[i]) == Some(b[i]); }
  }

  lemma DescribedAreValid(items: seq<Json.Value>, content: Content, hash: string -> string, fs: seq<RuntimeFile>)
    requires Describes(items, content, hash, fs)
    ensures AllValid(fs, content, hash)
  {}

  lemma InventoryHolds(fs: seq<RuntimeFile>, p: string)
    requires AllowedFile(p, Inventory(fs))
    ensures Lower(p) == Lower(MANIFEST) || exists i | 0 <= i < |fs| :: Lower(p) == Lower(fs[i].path)
  {
    hide Lower;
    var all := Inventory(fs);
    var i :| 0 <= i < |all| && Lower(p) == Lower(all[i]);
    if i > 0 { assert all[i] == fs[i - 1].path; }
  }

  lemma ManifestFolded()
    ensures Lower(MANIFEST) == MANIFEST
  {}

  lemma ExactlyTheInventory(tree: Tree, content: Content, hash: string -> string, fs: seq<RuntimeFile>)
    requires SameDirectory(tree, content) && AllValid(fs, content, hash) && content(MANIFEST).Some?
    requires !Faulty(tree, Inventory(fs))
    ensures forall p: string :: HasFile(tree, p) <==> AllowedFile(p, Inventory(fs))
  {
    forall p: string ensures HasFile(tree, p) <==> AllowedFile(p, Inventory(fs)) {
      if HasFile(tree, p) { FileIsAllowed(tree, fs, p); }
      if AllowedFile(p, Inventory(fs)) { AllowedIsThere(tree, content, hash, fs, p); }
    }
  }

  lemma FileIsAllowed(tree: Tree, fs: seq<RuntimeFile>, p: string)
    requires HasFile(tree, p) && !Faulty(tree, Inventory(fs))
    ensures AllowedFile(p, Inventory(fs))
  {
    hide Lower, InTree, Inventory, Child, IsDirectory;
    var parent: string, item: Item, depth: nat :|
      InTree(tree, parent, item, depth) && !item.isDirectory && Lower(Child(parent, item.name)) == Lower(p);
    assert AllowedItem(parent, item, Inventory(fs));
  }

  lemma AllowedIsThere(tree: Tree, content: Content, hash: string -> string, fs: seq<RuntimeFile>, p: string)
    requires SameDirectory(tree, content) && AllValid(fs, content, hash) && content(MANIFEST).Some?
    requires AllowedFile(p, Inventory(fs))
    ensures HasFile(tree, p)
  {
    hide Lower, HasFile, Inventory;
    InventoryHolds(fs, p);
    ManifestFolded();
    if Lower(p) != Lower(MANIFEST) {
      var i :| 0 <= i < |fs| && Lower(p) == Lower(fs[i].path);
      assert FileIsValid(fs[i], content, hash);
    }
  }

  // ---- the paths -----------------------------------------------------------------------------------

  lemma LowerTwice(s: string)
    ensures Lower(Lower(s)) == Lower(s)
  {}

  lemma FoldedComponent(s: string)
    ensures SafeComponent(s) <==> SafeComponent(Lower(s))
  {
    hide IsReserved;
    var l, e := Lower(s), Find(s, '.', 0);
    FindIs(l, '.', e);
    assert Lower(s[..e]) == l[..e];
    LowerTwice(s[..e]);
    assert forall i | 0 <= i < |s| :: IsForbidden(s[i]) <==> IsForbidden(l[i]);
    if l == "." { assert s == [s[0]]; }
    if l == ".." { assert s == [s[0], s[1]]; }
  }

  lemma {:induction false} FoldedSplit(s: string)
    ensures |Split(Lower(s), '/')| == |Split(s, '/')|
    ensures forall i | 0 <= i < |Split(s, '/')| :: Split(Lower(s), '/')[i] == Lower(Split(s, '/')[i])
    decreases |s|
  {
    var l, e := Lower(s), Find(s, '/', 0);
    FindIs(l, '/', e);
    assert Lower(s[..e]) == l[..e];
    if e < |s| {
      FoldedSplit(s[e + 1..]);
      assert Lower(s[e + 1..]) == l[e + 1..];
    }
  }

  lemma FoldedPlace(path: string)
    requires '\\' !in path
    ensures AllowlistedFolded(Identity(path)) <==> Allowlisted(Lower(path))
  {
    var w, l := Identity(path), Lower(path);
    assert forall i | 0 <= i < |path| :: w[i] == (if l[i] == '/' then '\\' else l[i]) && l[i] != '\\' by {
      forall i | 0 <= i < |path| ensures w[i] == (if l[i] == '/' then '\\' else l[i]) && l[i] != '\\' {
        assert path[i] in path;
      }
    }
    SameBeginning(w, l, "bin");
    SameBeginning(w, l, "lists");
    assert "bin" + "\\" == "bin\\" && "bin" + "/" == "bin/" && "lists" + "\\" == "lists\\" && "lists" + "/" == "lists/";
    SameText(w, l, "strategies\\catalog.json", "strategies/catalog.json");
    SameText(w, l, "provenance.json", "provenance.json");
    SameText(w, l, "runtime-manifest.json", "runtime-manifest.json");
  }

  predicate Turned(w: string, l: string) {
    |w| == |l| && forall i | 0 <= i < |w| :: w[i] == (if l[i] == '/' then '\\' else l[i]) && l[i] != '\\'
  }

  lemma SameBeginning(w: string, l: string, name: string)
    requires Turned(w, l) && '/' !in name && '\\' !in name
    ensures name + "\\" <= w <==> name + "/" <= l
  {
    var n := |name|;
    assert forall i | 0 <= i < n :: name[i] in name;
    if name + "\\" <= w {
      assert forall i | 0 <= i <= n :: w[i] == (name + "\\")[i];
      assert forall i | 0 <= i <= n :: l[i] == (name + "/")[i];
      assert l[..n + 1] == name + "/";
    }
    if name + "/" <= l {
      assert forall i | 0 <= i <= n :: l[i] == (name + "/")[i];
      assert forall i | 0 <= i <= n :: w[i] == (name + "\\")[i];
      assert w[..n + 1] == name + "\\";
    }
  }

  lemma SameText(w: string, l: string, a: string, b: string)
    requires Turned(w, l) && Turned(a, b)
    ensures w == a <==> l == b
  {
    if w == a { assert forall i | 0 <= i < |l| :: l[i] == b[i]; }
  }

  /** A path of the manifest is accepted exactly when its folded form is a package path. */
  lemma RuntimePathExactly(path: string)
    ensures SafeRuntimePath(path) <==> '\\' !in path && Packaged(Lower(path))
  {
    hide Split, SafeComponent, Packaged, AllowlistedFolded, Allowlisted, Identity;
    var l := Lower(path);
    assert forall i | 0 <= i < |path| :: l[i] == LowerChar(path[i]);
    PathExactly(l);
    FoldedSplit(path);
    forall i | 0 <= i < |Split(path, '/')| ensures SafeComponent(Split(path, '/')[i]) <==> SafeComponent(Split(l, '/')[i]) {
      FoldedComponent(Split(path, '/')[i]);
    }
    SameSigns(path);
    if '\\' !in path { FoldedPlace(path); }
  }

  lemma SameSigns(path: string)
    ensures ':' in path <==> ':' in Lower(path)
    ensures NUL in path <==> NUL in Lower(path)
    ensures '\\' in path <==> '\\' in Lower(path)
  {
    var l := Lower(path);
    assert forall i | 0 <= i < |path| ::
      (path[i] == ':' <==> l[i] == ':') && (path[i] == NUL <==> l[i] == NUL) && (path[i] == '\\' <==> l[i] == '\\');
  }
}
