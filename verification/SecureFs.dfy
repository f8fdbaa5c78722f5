/** `AtomicWriteStream`: replacing a file through a temporary one. */
module SecureFs {
  import opened Texts

  function Concat(chunks: seq<string>): string {
    if chunks == [] then "" else Concat(chunks[..|chunks| - 1]) + chunks[|chunks| - 1]
  }

  /** The target and the temporary file.  `moments` holds what the target was after every step:
      what a crash there leaves.  `worked` says that no call has failed. */
  class Files {
    var target: Option<string>
    var temporary: Option<string>
    ghost var moments: seq<Option<string>>
    ghost var worked: bool

    constructor (target: Option<string>)
      ensures this.target == target && temporary == None && moments == [target] && worked
    {
      this.target, temporary, moments, worked := target, None, [target], true;
    }

    ghost method Log()
      modifies `moments
      ensures moments == old(moments) + [target]
    {
      moments := moments + [target];
    }

    /** A new file with a random name; a name may be taken sixteen times over. */
    method CreateTemporary() returns (ok: bool)
      requires temporary == None
      modifies `temporary, `moments, `worked
      ensures temporary == (if ok then Some("") else None) && moments == old(moments) + [target]
      ensures worked == (old(worked) && ok)
    {
      ok := *;
      worked := worked && ok;
      if ok { temporary := Some(""); }
      Log();
    }

    /** Writing a chunk may stop half-way. */
    method WriteExact(chunk: string) returns (ok: bool)
      requires temporary.Some?
      modifies `temporary, `moments, `worked
      ensures temporary.Some? && moments == old(moments) + [target] && worked == (old(worked) && ok)
      ensures ok ==> temporary == Some(old(temporary).value + chunk)
    {
      ok := *;
      worked := worked && ok;
      var written: int := *;
      var n := if ok || !(0 <= written <= |chunk|) then |chunk| else written;
      temporary := Some(temporary.value + chunk[..n]);
      assert chunk[..|chunk|] == chunk;
      Log();
    }

    method DeleteTemporary()
      modifies `temporary, `moments
      ensures moments == old(moments) + [target]
    {
      var deleted: bool := *;
      if deleted { temporary := None; }
      Log();
    }

    /** `MoveFileExW` with replacement: all or nothing. */
    method Move() returns (ok: bool)
      requires temporary.Some?
      modifies `target, `temporary, `moments, `worked
      ensures target == (if ok then old(temporary) else old(target))
      ensures temporary == (if ok then None else old(temporary)) && moments == old(moments) + [target]
      ensures worked == (old(worked) && ok)
    {
      ok := *;
      worked := worked && ok;
      if ok { target, temporary := temporary, None; }
      Log();
    }
  }

  /** Every moment shows the old file or the whole new one. */
  ghost predicate NeverPartial(moments: seq<Option<string>>, before: Option<string>, data: string) {
    forall i | 0 <= i < |moments| :: moments[i] == before || moments[i] == Some(data)
  }

  lemma NeverPartialSnoc(moments: seq<Option<string>>, m: Option<string>, before: Option<string>, data: string)
    ensures NeverPartial(moments + [m], before, data) == (NeverPartial(moments, before, data) && (m == before || m == Some(data)))
  {
    var all := moments + [m];
    assert all[|moments|] == m && forall i | 0 <= i < |moments| :: all[i] == moments[i];
  }

  /** What the steps around the writes report. */
  datatype Outcomes = Outcomes(parent: bool, existing: bool, handle: bool, producer: bool, flush: bool,
                               hardened: bool, readable: bool, targetCheck: bool, targetReadable: bool)

  const ALL_WELL: Outcomes := Outcomes(true, true, true, true, true, true, true, true, true)

  lemma {:induction false} ConcatGrows(chunks: seq<string>, n: nat)
    requires n <= |chunks|
    ensures |Concat(chunks[..n])| <= |Concat(chunks)|
  {
    if n < |chunks| {
      ConcatGrows(chunks[..|chunks| - 1], n);
      assert chunks[..|chunks| - 1][..n] == chunks[..n];
    } else {
      assert chunks[..n] == chunks;
    }
  }

  /** The producer hands its chunks to the sink, which counts them and never lets more than the
      expected size through. */
  method Stream(fs: Files, chunks: seq<string>, expectedSize: nat) returns (ok: bool, streamed: nat)
    requires fs.temporary == Some("") && NeverPartial(fs.moments, fs.target, Concat(chunks))
    modifies fs`temporary, fs`moments, fs`worked
    ensures fs.worked ==> old(fs.worked)
    ensures fs.worked ==> ok == (|Concat(chunks)| <= expectedSize)
    ensures NeverPartial(fs.moments, fs.target, Concat(chunks)) && fs.temporary.Some?
    ensures streamed <= expectedSize
    ensures ok ==> fs.temporary == Some(Concat(chunks)) && streamed == |Concat(chunks)|
  {
    streamed := 0;
    assert chunks[..0] == [];
    for i := 0 to |chunks|
      invariant NeverPartial(fs.moments, fs.target, Concat(chunks))
      invariant fs.temporary == Some(Concat(chunks[..i])) && streamed == |Concat(chunks[..i])| <= expectedSize
      invariant fs.worked == old(fs.worked)
    {
      var chunk := chunks[i];
      ConcatGrows(chunks, i + 1);
      assert chunks[..i + 1][..i] == chunks[..i];
      if streamed > expectedSize || |chunk| > expectedSize - streamed { return false, streamed; }
      NeverPartialSnoc(fs.moments, fs.target, fs.target, Concat(chunks));
      var written := fs.WriteExact(chunk);
      if !written { return false, streamed; }
      streamed := streamed + |chunk|;
    }
    assert chunks[..|chunks|] == chunks;
    ok := true;
  }

  /** Replaces the target by what the producer gives, if that has the expected size and hash.  At
      every moment the target is the old file or the whole new one; success means the new one, and
      a failure may come after the replacement.  It succeeds whenever no call fails. */
  method AtomicWriteStream(fs: Files, chunks: seq<string>, expectedSize: nat, sha256: string,
                           hash: string -> string, o: Outcomes) returns (ok: bool)
    requires fs.temporary == None && fs.moments == [fs.target]
    modifies fs
    ensures NeverPartial(fs.moments, old(fs.target), Concat(chunks))
    ensures fs.target == old(fs.target) || (fs.target == Some(Concat(chunks)) && Expected(Concat(chunks), expectedSize, sha256, hash))
    ensures ok ==> fs.target == Some(Concat(chunks)) && Expected(Concat(chunks), expectedSize, sha256, hash)
    ensures ok ==> fs.temporary == None
    ensures fs.worked && o == ALL_WELL && |sha256| == 64 && Expected(Concat(chunks), expectedSize, sha256, hash) ==> ok
  {
    ghost var before, data := fs.target, Concat(chunks);
    hide NeverPartial, Concat;
    NeverPartialStarts(before, data);
    if |sha256| != 64 || !o.parent || !o.existing { return false; }
    NeverPartialSnoc(fs.moments, before, before, data);
    ok := fs.CreateTemporary();
    if !ok { return; }
    var streamed := 0;
    if o.handle { ok, streamed := Stream(fs, chunks, expectedSize); } else { ok := false; }
    NeverPartialSnoc(fs.moments, before, before, data);
    if !ok || !o.producer || streamed != expectedSize || !o.flush || !o.hardened {
      fs.DeleteTemporary();
      return false;
    }
    if !o.readable || |fs.temporary.value| != expectedSize || hash(fs.temporary.value) != sha256 {
      fs.DeleteTemporary();
      return false;
    }
    NeverPartialSnoc(fs.moments, Some(data), before, data);
    ok := fs.Move();
    if !ok {
      NeverPartialSnoc(fs.moments, before, before, data);
      fs.DeleteTemporary();
      return;
    }
    ok := o.targetCheck && o.targetReadable;
  }

  predicate Expected(data: string, size: nat, sha256: string, hash: string -> string) {
    |data| == size && hash(data) == sha256
  }

  lemma NeverPartialStarts(before: Option<string>, data: string)
    ensures NeverPartial([before], before, data)
  {}
}
