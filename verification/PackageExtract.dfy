/** Extracting an accepted package into a new runtime directory, and verifying what was extracted.
    Paths are ASCII; the file system identifies names that are equal up to ASCII case. */
module PackageExtract {
  import opened Texts
  import opened UpdatePackage
  import opened PackageFile

  /** `ToWindowsPath`. */
  function WindowsPath(path: string): (r: string)
    ensures |r| == |path|
  {
    seq(|path|, i requires 0 <= i < |path| => if path[i] == '/' then '\\' else path[i])
  }

  /** What the file system identifies a path by. */
  function Identity(path: string): string { Lower(WindowsPath(path)) }

  lemma IdentityExact(a: string, b: string)
    requires '\\' !in a && '\\' !in b
    ensures Identity(a) == Identity(b) <==> Lower(a) == Lower(b)
  {
    if Identity(a) == Identity(b) {
      assert |a| == |b|;
      forall i | 0 <= i < |a| ensures LowerChar(a[i]) == LowerChar(b[i]) {
        assert a[i] in a && b[i] in b;
        assert Identity(a)[i] == Identity(b)[i];
      }
      assert Lower(a) == Lower(b);
    }
    if Lower(a) == Lower(b) {
      forall i | 0 <= i < |a| ensures Identity(a)[i] == Identity(b)[i] {
        assert Lower(a)[i] == Lower(b)[i];
        assert a[i] in a && b[i] in b;
      }
      assert Identity(a) == Identity(b);
    }
  }

  /** The destination directory: the files in it by identity.  `worked` says that no call has
      failed. */
  class Folder {
    var present: bool
    var files: map<string, string>
    ghost var worked: bool

    constructor ()
      ensures !present && files == map[] && worked
    {
      present, files, worked := false, map[], true;
    }

    /** `EnsureProtectedDirectory` for the destination. */
    method Create() returns (ok: bool)
      requires !present && files == map[]
      modifies this
      ensures files == map[] && (ok ==> present) && worked == (old(worked) && ok)
    {
      ok := *;
      worked := worked && ok;
      present := *;
      if ok { present := true; }
    }

    /** `EnsureProtectedDirectory` for a directory inside. */
    method EnsureDirectory(path: string) returns (ok: bool)
      modifies `worked
      ensures worked == (old(worked) && ok)
    {
      ok := *;
      worked := worked && ok;
    }

    /** `AtomicWrite`: a failure may come after the file has been replaced. */
    method AtomicWrite(path: string, data: string) returns (ok: bool)
      modifies this`files, this`worked
      ensures files == old(files) || files == old(files)[Lower(path) := data]
      ensures ok ==> files == old(files)[Lower(path) := data]
      ensures worked == (old(worked) && ok)
    {
      ok := *;
      worked := worked && ok;
      var replaced: bool := *;
      if ok || replaced { files := files[Lower(path) := data]; }
    }

    /** `RemoveTreeUnder`, which may stop half-way. */
    method RemoveTree()
      modifies this
      ensures files.Keys <= old(files).Keys && worked == old(worked)
    {
      var kept: set<string> := *;
      files := map p | p in files && p in kept :: files[p];
      present := *;
    }
  }

  /** The bytes at a position of the file, when it is long enough. */
  function ReadAt(file: string, position: nat, size: nat): Option<string> {
    if position + size <= |file| then Some(file[position..position + size]) else None
  }

  /** Entry k is among the files, with the bytes that the package file holds for it. */
  ghost predicate Extracted(file: string, p: Package, hash: string -> string, files: map<string, string>, k: nat)
    requires k < |p.entries|
  {
    var id := Identity(p.entries[k].path);
    && id in files && ReadAt(file, Offset(p, k), p.entries[k].size) == Some(files[id])
    && hash(files[id]) == p.entries[k].sha256
  }

  /** The first n entries are among the files, and there are no other files. */
  ghost predicate ExtractedAll(file: string, p: Package, hash: string -> string, files: map<string, string>, n: nat)
    requires n <= |p.entries|
  {
    && (forall k | 0 <= k < n :: Extracted(file, p, hash, files, k))
    && (forall id | id in files :: exists k | 0 <= k < n :: id == Identity(p.entries[k].path))
  }

  lemma IdentitiesDiffer(es: seq<Entry>, limits: Limits, i: nat, j: nat)
    requires limits.maxTotalBytes < TWO64 && Acceptable(es, limits) && i < j < |es|
    ensures Identity(es[i].path) != Identity(es[j].path)
  {
    hide Lower, Identity, Mandatory, Running;
    assert EntryOk(es[i], limits) && EntryOk(es[j], limits);
    IdentityExact(es[i].path, es[j].path);
    assert Lower(es[i].path) != Lower(es[j].path);
  }

  lemma ExtractedNext(file: string, p: Package, limits: Limits, hash: string -> string,
                      files: map<string, string>, n: nat, data: string)
    requires limits.maxTotalBytes < TWO64 && Acceptable(p.entries, limits) && n < |p.entries|
    requires ExtractedAll(file, p, hash, files, n)
    requires ReadAt(file, Offset(p, n), p.entries[n].size) == Some(data) && hash(data) == p.entries[n].sha256
    ensures ExtractedAll(file, p, hash, files[Identity(p.entries[n].path) := data], n + 1)
  {
    hide Identity, Acceptable, Offset, ReadAt;
    var id := Identity(p.entries[n].path);
    var more := files[id := data];
    forall k | 0 <= k < n ensures Extracted(file, p, hash, more, k) {
      IdentitiesDiffer(p.entries, limits, k, n);
      assert Extracted(file, p, hash, files, k);
    }
    assert Extracted(file, p, hash, more, n);
  }

  lemma OffsetNext(p: Package, k: nat)
    requires k < |p.entries|
    ensures Offset(p, k + 1) == Offset(p, k) + p.entries[k].size && Offset(p, 0) == p.dataOffset
  {
    TotalPrefix(p.entries, k);
    assert p.entries[..0] == [];
  }

  /** The file holds the slice of entry k, with its hash. */
  predicate HasSlice(file: string, p: Package, hash: string -> string, k: nat)
    requires k < |p.entries|
  {
    var data := ReadAt(file, Offset(p, k), p.entries[k].size);
    data.Some? && hash(data.value) == p.entries[k].sha256
  }

  predicate HasSlices(file: string, p: Package, hash: string -> string, n: nat)
    requires n <= |p.entries|
  {
    forall k | 0 <= k < n :: HasSlice(file, p, hash, k)
  }

  lemma SlicesNext(file: string, p: Package, hash: string -> string, n: nat)
    requires n < |p.entries|
    ensures HasSlices(file, p, hash, n + 1) <==> HasSlices(file, p, hash, n) && HasSlice(file, p, hash, n)
    ensures !HasSlice(file, p, hash, n) ==> !HasSlices(file, p, hash, |p.entries|)
  {
    hide HasSlice;
  }

  /** One pass of the loop; every failure leads to the removal of the tree. */
  method ExtractEntry(file: string, p: Package, limits: Limits, hash: string -> string, folder: Folder,
                      index: nat, offset: nat) returns (ok: bool)
    requires limits.maxTotalBytes < TWO64 && Acceptable(p.entries, limits) && index < |p.entries|
    requires p.dataOffset + offset == Offset(p, index) && ExtractedAll(file, p, hash, folder.files, index)
    modifies folder`files, folder`worked
    ensures ok ==> ExtractedAll(file, p, hash, folder.files, index + 1)
    ensures (folder.worked ==> old(folder.worked)) && (folder.worked ==> ok == HasSlice(file, p, hash, index))
  {
    hide ExtractedAll, Lower, WindowsPath, Offset, Acceptable;
    var entry := p.entries[index];
    var target := WindowsPath(entry.path);
    ok := folder.EnsureDirectory(target);
    if !ok { return; }
    var data := ReadAt(file, p.dataOffset + offset, entry.size);
    if data.None? || hash(data.value) != entry.sha256 { return false; }
    ExtractedNext(file, p, limits, hash, folder.files, index, data.value);
    ok := folder.AtomicWrite(target, data.value);
  }

  /** Writes every entry from its own slice of the file.  On success each entry is there with the
      bytes and the hash of its own slice, none has been overwritten by another, and nothing else
      is in the folder.  The file need not be the one that was parsed: the hashes decide, and they
      alone if no call fails. */
  method ExtractPackage(file: string, p: Package, limits: Limits, hash: string -> string, folder: Folder) returns (ok: bool)
    requires limits.maxTotalBytes < TWO64 && Acceptable(p.entries, limits)
    requires !folder.present && folder.files == map[]
    modifies folder
    ensures ok ==> ExtractedAll(file, p, hash, folder.files, |p.entries|)
    ensures folder.worked ==> ok == HasSlices(file, p, hash, |p.entries|)
  {
    ok := folder.Create();
    if !ok { return; }
    NoSlices(file, p, hash);
    NothingExtracted(file, p, hash);
    ok := ExtractEntries(file, p, limits, hash, folder);
    if !ok { folder.RemoveTree(); }
  }

  method ExtractEntries(file: string, p: Package, limits: Limits, hash: string -> string, folder: Folder) returns (ok: bool)
    requires limits.maxTotalBytes < TWO64 && Acceptable(p.entries, limits)
    requires ExtractedAll(file, p, hash, folder.files, 0) && HasSlices(file, p, hash, 0)
    modifies folder`files, folder`worked
    ensures ok ==> ExtractedAll(file, p, hash, folder.files, |p.entries|)
    ensures folder.worked ==> ok == HasSlices(file, p, hash, |p.entries|)
  {
    hide *;
    OffsetStarts(p);
    var offset: nat := 0;
    for index := 0 to |p.entries|
      invariant p.dataOffset + offset == Offset(p, index)
      invariant ExtractedAll(file, p, hash, folder.files, index)
      invariant folder.worked ==> HasSlices(file, p, hash, index)
    {
      SlicesNext(file, p, hash, index);
      ok := ExtractEntry(file, p, limits, hash, folder, index, offset);
      if !ok { return; }
      OffsetNext(p, index);
      offset := offset + p.entries[index].size;
    }
    ok := true;
  }

  lemma NoSlices(file: string, p: Package, hash: string -> string)
    ensures HasSlices(file, p, hash, 0)
  {}

  lemma NothingExtracted(file: string, p: Package, hash: string -> string)
    ensures ExtractedAll(file, p, hash, map[], 0)
  {}

  lemma OffsetStarts(p: Package)
    ensures Offset(p, 0) == p.dataOffset
  {
    assert p.entries[..0] == [];
  }

  // ---- VerifyExtractedPackage ------------------------------------------------------------------

  /** Every entry is there with its size and hash. */
  predicate Verified(p: Package, hash: string -> string, files: map<string, string>) {
    forall k | 0 <= k < |p.entries| ::
      var e := p.entries[k];
      && SafePath(e.path) && Identity(e.path) in files
      && |files[Identity(e.path)]| == e.size && hash(files[Identity(e.path)]) == e.sha256
  }

  method VerifyExtractedPackage(p: Package, hash: string -> string, folder: Folder) returns (ok: bool)
    ensures ok == Verified(p, hash, folder.files)
  {
    hide SafePath, Lower;
    for index := 0 to |p.entries|
      invariant forall k | 0 <= k < index ::
        var e := p.entries[k];
        && SafePath(e.path) && Identity(e.path) in folder.files
        && |folder.files[Identity(e.path)]| == e.size && hash(folder.files[Identity(e.path)]) == e.sha256
    {
      var entry := p.entries[index];
      var normalized := NormalizePackagePath(entry.path);
      if normalized.None? { return false; }
      var path := Lower(WindowsPath(normalized.value));
      if path !in folder.files || |folder.files[path]| != entry.size || hash(folder.files[path]) != entry.sha256 {
        return false;
      }
    }
    return true;
  }

  /** What was extracted verifies, and it is the accepted file's own contents, entry by entry. */
  lemma ExtractedVerifies(file: string, limits: Limits, hash: string -> string, files: map<string, string>)
    requires Sane(limits) && Parsed(file, limits).Some?
    requires var p := Parsed(file, limits).value; ExtractedAll(file, p, hash, files, |p.entries|)
    ensures var p := Parsed(file, limits).value;
            && Verified(p, hash, files)
            && forall k | 0 <= k < |p.entries| :: OwnSlice(file, p, k) && files[Identity(p.entries[k].path)] == Slice(file, p, k)
  {
    hide Identity, Offset, Header, RootOk, Scan, ManifestIndex, Mandatory, Running, Distinct;
    EntriesTile(file, limits);
    var p := Parsed(file, limits).value;
    forall k | 0 <= k < |p.entries|
      ensures OwnSlice(file, p, k) && Identity(p.entries[k].path) in files
      ensures files[Identity(p.entries[k].path)] == Slice(file, p, k)
      ensures SafePath(p.entries[k].path) && hash(files[Identity(p.entries[k].path)]) == p.entries[k].sha256
    {
      assert OwnSlice(file, p, k) && Extracted(file, p, hash, files, k) && EntryOk(p.entries[k], limits);
    }
  }
}
