/** A reader that follows the .ZIP File Format Specification (APPNOTE.TXT) recovers the exported
    entries from the archive. */
module ZipReader {
  import opened Texts
  import opened Zip

  // ---- the reader ---------------------------------------------------------------------------

  /** A stored file at the front of `t` (4.3.7): its name and `size` bytes of content. */
  function ReadLocal(t: seq<byte>, size: nat): Option<Entry> {
    match ReadFields(LOCAL_FORMAT, t)
    case None => None
    case Some(p) =>
      var (v, rest) := p;
      var n, skip := v[9], v[9] + v[10];
      if v[0] != LOCAL_SIGNATURE || v[3] != 0 || |rest| < skip + size then None
      else Some(Entry(rest[..n], rest[skip..skip + size]))
  }

  /** A file header of the central directory (4.3.12). */
  datatype Header = Header(name: seq<byte>, crc: nat, size: nat, offset: nat)

  function ReadHeader(t: seq<byte>): (r: Option<(Header, seq<byte>)>)
    ensures r.Some? ==> |r.value.1| <= |t|
  {
    match ReadFields(CENTRAL_FORMAT, t)
    case None => None
    case Some(p) =>
      var (v, rest) := p;
      var n, skip := v[10], v[10] + v[11] + v[12];
      if v[0] != CENTRAL_SIGNATURE || v[4] != 0 || v[8] != v[9] || |rest| < skip then None
      else Some((Header(rest[..n], v[7], v[8], v[16]), rest[skip..]))
  }

  const ZIP64: nat := 0xFFFF_FFFF

  /** The file that a header describes, checked against its name and CRC. */
  function ReadEntry(a: seq<byte>, h: Header): Option<Entry> {
    if h.size == ZIP64 || h.offset == ZIP64 || h.offset > |a| then None else
    match ReadLocal(a[h.offset..], h.size)
    case None => None
    case Some(e) => if e.name == h.name && CrcOf(e.content) == h.crc then Some(e) else None
  }

  function ReadEntries(a: seq<byte>, t: seq<byte>, count: nat): (r: Option<seq<Entry>>)
    ensures r.Some? ==> |r.value| == count
    decreases count
  {
    if count == 0 then Some([]) else
    match ReadHeader(t)
    case None => None
    case Some(h) =>
      var first, others := ReadEntry(a, h.0), ReadEntries(a, h.1, count - 1);
      if first.None? || others.None? then None else Some([first.value] + others.value)
  }

  const END_SIZE: nat := 22

  /** The end of central directory record at `p` (4.3.16), if its comment reaches the end of the file. */
  function EndAt(a: seq<byte>, p: nat): (r: Option<seq<nat>>)
    requires p <= |a|
    ensures r.Some? ==> |r.value| == 8
  {
    match ReadFields(END_FORMAT, a[p..])
    case None => None
    case Some(q) =>
      if q.0[0] == END_SIGNATURE && p + END_SIZE + q.0[7] == |a| then Some(q.0) else None
  }

  /** The last end record of the file, searched backwards. */
  function FindEnd(a: seq<byte>, p: nat): (r: Option<seq<nat>>)
    requires p <= |a|
    ensures r.Some? ==> |r.value| == 8
  {
    if EndAt(a, p).Some? then EndAt(a, p)
    else if p == 0 then None
    else FindEnd(a, p - 1)
  }

  function Read(a: seq<byte>): Option<seq<Entry>> {
    if |a| < END_SIZE then None else
    match FindEnd(a, |a| - END_SIZE)
    case None => None
    case Some(v) =>
      var count, offset := v[4], v[6];
      if v[1] != 0 || v[2] != 0 || v[3] != count || count == 0xFFFF || offset == ZIP64 || offset > |a| then None
      else ReadEntries(a, a[offset..], count)
  }

  // ---- reading the parts ---------------------------------------------------------------------

  lemma LocalFields(crc: nat, size: nat, n: nat, r: seq<byte>)
    requires crc < TWO32 && size < TWO32 && n < 65536
    ensures ReadFields([4, 2, 2, 2, 2, 2, 4, 4, 4, 2, 2], Bytes(Local(crc, size, n)) + r)
         == Some(([0x04034B50, 20, 2048, 0, 0, 0x21, crc, size, size, n, 0], r))
  {
    var fs := Local(crc, size, n);
    Bounds();
    ReadBytes(fs, r);
    assert Widths(fs) == LOCAL_FORMAT;
    assert Values(fs) == [LOCAL_SIGNATURE, 20, 2048, 0, 0, 0x21, crc, size, size, n, 0];
  }

  lemma Bounds()
    ensures Bound(2) == 65536 && Bound(4) == TWO32
  {
    assert Bound(1) == 256;
    assert Bound(3) == 256 * Bound(2);
  }

  lemma CentralFields(crc: nat, size: nat, n: nat, offset: nat, r: seq<byte>)
    requires crc < TWO32 && size < TWO32 && n < 65536 && offset < TWO32
    ensures ReadFields([4, 2, 2, 2, 2, 2, 2, 4, 4, 4, 2, 2, 2, 2, 2, 4, 4], Bytes(Central(crc, size, n, offset)) + r)
         == Some(([0x02014B50, 20, 20, 2048, 0, 0, 0x21, crc, size, size, n, 0, 0, 0, 0, 0, offset], r))
  {
    hide ReadFields, Bytes, Bound;
    var fs := Central(crc, size, n, offset);
    Bounds();
    ReadBytes(fs, r);
    assert Widths(fs) == CENTRAL_FORMAT;
    assert Values(fs) == [CENTRAL_SIGNATURE, 20, 20, 2048, 0, 0, 0x21, crc, size, size, n, 0, 0, 0, 0, 0, offset];
  }

  lemma EndFields(count: nat, size: nat, offset: nat, r: seq<byte>)
    requires count < 65536 && size < TWO32 && offset < TWO32
    ensures ReadFields([4, 2, 2, 2, 2, 4, 4, 2], Bytes(End(count, size, offset)) + r)
         == Some(([0x06054B50, 0, 0, count, count, size, offset, 0], r))
  {
    var fs := End(count, size, offset);
    Bounds();
    ReadBytes(fs, r);
    assert Widths(fs) == END_FORMAT;
    assert Values(fs) == [END_SIGNATURE, 0, 0, count, count, size, offset, 0];
  }

  /** An entry whose sizes fit the fields of the format. */
  predicate Fits(e: Entry) { |e.name| < 65536 && |e.content| < ZIP64 }

  lemma ReadLocalPart(e: Entry, r: seq<byte>)
    requires Fits(e)
    ensures ReadLocal(LocalPart(e) + r, |e.content|) == Some(e)
  {
    hide ReadFields, Bytes, Local, CrcOf;
    var head := Bytes(Local(CrcOf(e.content), |e.content|, |e.name|));
    var rest := e.name + e.content + r;
    assert LocalPart(e) + r == head + rest;
    LocalFields(CrcOf(e.content), |e.content|, |e.name|, rest);
    assert rest[..|e.name|] == e.name && rest[|e.name|..|e.name| + |e.content|] == e.content;
  }

  lemma ReadCentralPart(e: Entry, offset: nat, r: seq<byte>)
    requires Fits(e) && offset < TWO32
    ensures ReadHeader(CentralPart(e, offset) + r)
         == Some((Header(e.name, CrcOf(e.content), |e.content|, offset), r))
  {
    hide ReadFields, Bytes, Central, CrcOf;
    var head := Bytes(Central(CrcOf(e.content), |e.content|, |e.name|, offset));
    var rest := e.name + r;
    assert CentralPart(e, offset) + r == head + rest;
    CentralFields(CrcOf(e.content), |e.content|, |e.name|, offset, rest);
    assert rest[..|e.name|] == e.name && rest[|e.name|..] == r;
  }

  /** A header that points at the local part of an entry gives the entry. */
  lemma ReadEntryAt(pre: seq<byte>, e: Entry, post: seq<byte>)
    requires Fits(e) && |pre| < ZIP64
    ensures ReadEntry(pre + LocalPart(e) + post, Header(e.name, CrcOf(e.content), |e.content|, |pre|)) == Some(e)
  {
    hide ReadLocal, LocalPart, CrcOf;
    var a := pre + LocalPart(e) + post;
    assert a[|pre|..] == LocalPart(e) + post;
    ReadLocalPart(e, post);
  }

  // ---- reading the whole archive ---------------------------------------------------------------

  predicate AllFit(es: seq<Entry>) { forall i | 0 <= i < |es| :: Fits(es[i]) }

  lemma ReadHeaders(a: seq<byte>, e: Entry, offset: nat, others: seq<byte>, rest: seq<Entry>)
    requires Fits(e) && offset < TWO32
    requires ReadEntry(a, Header(e.name, CrcOf(e.content), |e.content|, offset)) == Some(e)
    requires ReadEntries(a, others, |rest|) == Some(rest)
    ensures ReadEntries(a, CentralPart(e, offset) + others, |rest| + 1) == Some([e] + rest)
  {
    hide ReadHeader, ReadEntry, CentralPart, CrcOf;
    ReadCentralPart(e, offset, others);
  }

  lemma {:induction false} ReadAll(pre: seq<byte>, es: seq<Entry>, post: seq<byte>, r: seq<byte>)
    requires AllFit(es) && |pre + Locals(es) + post| < TWO32 && (es != [] ==> |pre| < ZIP64)
    ensures ReadEntries(pre + Locals(es) + post, Directory(es, |pre|) + r, |es|) == Some(es)
    decreases |es|
  {
    hide ReadEntry, ReadHeader, LocalPart, CentralPart, CrcOf, Fits;
    if es != [] {
      var a := pre + Locals(es) + post;
      var e, others := es[0], es[1..];
      var next := pre + LocalPart(e);
      Regroup(pre, LocalPart(e), Locals(others), post);
      LocalSize(e);
      ReadEntryAt(pre, e, Locals(others) + post);
      if others != [] { MoreLocals(others); }
      ReadAll(next, others, post, r);
      var rest := Directory(others, |next|) + r;
      assert Directory(es, |pre|) + r == CentralPart(e, |pre|) + rest;
      hide ReadEntries;
      ReadHeaders(a, e, |pre|, rest, others);
      assert es == [e] + others;
    }
  }

  lemma Regroup(pre: seq<byte>, x: seq<byte>, y: seq<byte>, post: seq<byte>)
    ensures pre + (x + y) + post == pre + x + (y + post) == pre + x + y + post
  {}

  function Sum(widths: seq<nat>): nat { if widths == [] then 0 else widths[0] + Sum(widths[1..]) }

  lemma {:induction false} BytesSize(fs: seq<Field>)
    ensures |Bytes(fs)| == Sum(Widths(fs))
  {
    hide LE;
    if fs != [] {
      BytesSize(fs[1..]);
      FieldsCons(fs);
      assert Widths(fs)[1..] == Widths(fs[1..]);
    }
  }

  lemma RecordSizes(crc: nat, size: nat, n: nat, count: nat, offset: nat)
    ensures |Bytes(Local(crc, size, n))| == 30 && |Bytes(End(count, size, offset))| == END_SIZE
  {
    hide Bytes;
    var local, end := Local(crc, size, n), End(count, size, offset);
    BytesSize(local);
    BytesSize(end);
    assert Widths(local) == LOCAL_FORMAT && Widths(end) == END_FORMAT;
    assert Sum(LOCAL_FORMAT) == 30 && Sum(END_FORMAT) == 22;
  }

  lemma LocalSize(e: Entry)
    ensures |LocalPart(e)| == 30 + |e.name| + |e.content|
  {
    hide Bytes, Local, CrcOf;
    RecordSizes(CrcOf(e.content), U32(|e.content|), U16(|e.name|), 0, 0);
  }

  lemma MoreLocals(es: seq<Entry>)
    requires es != []
    ensures |Locals(es)| >= 30
  {
    hide LocalPart;
    LocalSize(es[0]);
  }

  lemma {:induction false} ContentsFit(es: seq<Entry>)
    requires AllValid(es) && |Locals(es)| < TWO32
    ensures AllFit(es)
  {
    hide LocalPart;
    if es != [] {
      LocalSize(es[0]);
      assert forall i | 0 <= i < |es| - 1 :: es[1..][i] == es[i + 1];
      ContentsFit(es[1..]);
      assert forall i | 0 < i < |es| :: es[i] == es[1..][i - 1];
    }
  }

  // ---- the main result ---------------------------------------------------------------------------

  lemma FindsEnd(es: seq<Entry>)
    ensures var a, v := Archive(es), End(U16(|es|), U32(|Directory(es, 0)|), U32(|Locals(es)|));
            |a| >= END_SIZE && FindEnd(a, |a| - END_SIZE) == Some(Values(v))
  {
    hide ReadFields, Bytes, Locals, Directory, U16, U32;
    var a := Archive(es);
    var count, size, offset := U16(|es|), U32(|Directory(es, 0)|), U32(|Locals(es)|);
    RecordSizes(0, size, 0, count, offset);
    assert a[|a| - END_SIZE..] == EndPart(es);
    assert EndPart(es) + [] == EndPart(es);
    EndFields(count, size, offset, []);
    assert Values(End(count, size, offset)) == [END_SIGNATURE, 0, 0, count, count, size, offset, 0];
  }

  /** The directory is where the end record says it is. */
  lemma DirectoryAt(es: seq<Entry>)
    requires |Archive(es)| < TWO32
    ensures U32(|Locals(es)|) == |Locals(es)| < ZIP64
    ensures Archive(es)[|Locals(es)|..] == Directory(es, 0) + EndPart(es)
    ensures Archive(es) == [] + Locals(es) + (Directory(es, 0) + EndPart(es))
  {
    hide Bytes, Locals, Directory;
    FindsEnd(es);
    RecordSizes(0, U32(|Directory(es, 0)|), 0, U16(|es|), U32(|Locals(es)|));
  }

  /** A reader of the format recovers exactly the exported entries, in order and with their names
      and contents, if and only if there are fewer than 65535 of them.  The archive must stay
      below 4 GiB: the writer truncates its 32-bit offsets without a check. */
  lemma ReadOfArchive(es: seq<Entry>)
    requires AllValid(es) && |Archive(es)| < TWO32
    ensures Read(Archive(es)) == Some(es) <==> |es| < 0xFFFF
  {
    hide Archive, Locals, Directory, EndPart, Bytes, AllValid, AllFit, ReadEntries, FindEnd;
    var a := Archive(es);
    FindsEnd(es);
    DirectoryAt(es);
    ContentsFit(es);
    if |es| < 0xFFFF {
      ReadAll([], es, Directory(es, 0) + EndPart(es), EndPart(es));
    }
  }
}
