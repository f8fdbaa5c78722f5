/** The store-only ZIP archive of the diagnostics export, and a reader that follows the .ZIP File
    Format Specification (APPNOTE.TXT 4.3.7, 4.3.12 and 4.3.16). */
module Zip {
  import opened Texts
  import Crc

  type byte = n: nat | n < 256

  datatype Entry = Entry(name: seq<byte>, content: seq<byte>)

  // ---- little-endian fields -----------------------------------------------------------------

  function Bound(width: nat): (b: nat)
    ensures b > 0
  {
    if width == 0 then 1 else 256 * Bound(width - 1)
  }

  function LE(width: nat, v: nat): (b: seq<byte>)
    ensures |b| == width
  {
    if width == 0 then [] else [v % 256] + LE(width - 1, v / 256)
  }

  function FromLE(b: seq<byte>): nat {
    if b == [] then 0 else b[0] + 256 * FromLE(b[1..])
  }

  lemma {:induction false} FromLEOfLE(width: nat, v: nat)
    requires v < Bound(width)
    ensures FromLE(LE(width, v)) == v
  {
    if width > 0 {
      FromLEOfLE(width - 1, v / 256);
      assert LE(width, v)[1..] == LE(width - 1, v / 256);
    }
  }

  /** A field of a record: how many bytes it takes, and its value. */
  datatype Field = Field(width: nat, value: nat)

  function Bytes(fs: seq<Field>): seq<byte> {
    if fs == [] then [] else LE(fs[0].width, fs[0].value) + Bytes(fs[1..])
  }

  lemma {:induction false} BytesSnoc(fs: seq<Field>, f: Field)
    ensures Bytes(fs + [f]) == Bytes(fs) + LE(f.width, f.value)
  {
    hide LE;
    if fs == [] {
      assert fs + [f] == [f];
      BytesOne(f);
    } else {
      BytesSnoc(fs[1..], f);
      assert (fs + [f])[1..] == fs[1..] + [f];
    }
  }

  lemma BytesOne(f: Field)
    ensures Bytes([f]) == LE(f.width, f.value) && Bytes([]) == []
  {
    hide LE;
    assert [f][1..] == [];
    assert LE(f.width, f.value) + [] == LE(f.width, f.value);
  }

  /** Reading a record by the widths of its fields: their values and the bytes after it. */
  function ReadFields(format: seq<nat>, t: seq<byte>): (r: Option<(seq<nat>, seq<byte>)>)
    ensures r.Some? ==> |r.value.0| == |format| && |r.value.1| <= |t|
  {
    if format == [] then Some(([], t))
    else if |t| < format[0] then None
    else
      match ReadFields(format[1..], t[format[0]..])
      case None => None
      case Some(p) => Some(([FromLE(t[..format[0]])] + p.0, p.1))
  }

  function Widths(fs: seq<Field>): (r: seq<nat>)
    ensures |r| == |fs|
  {
    seq(|fs|, i requires 0 <= i < |fs| => fs[i].width)
  }

  function Values(fs: seq<Field>): (r: seq<nat>)
    ensures |r| == |fs|
  {
    seq(|fs|, i requires 0 <= i < |fs| => fs[i].value)
  }

  predicate InRange(fs: seq<Field>) { forall i | 0 <= i < |fs| :: fs[i].value < Bound(fs[i].width) }

  lemma ReadField(f: Field, format: seq<nat>, u: seq<byte>)
    requires f.value < Bound(f.width)
    ensures ReadFields([f.width] + format, LE(f.width, f.value) + u)
         == match ReadFields(format, u) case None => None case Some(p) => Some(([f.value] + p.0, p.1))
  {
    FromLEOfLE(f.width, f.value);
    hide LE, FromLE;
    var t := LE(f.width, f.value) + u;
    assert t[..f.width] == LE(f.width, f.value) && t[f.width..] == u;
    assert ([f.width] + format)[1..] == format;
  }

  lemma FieldsCons(fs: seq<Field>)
    requires fs != []
    ensures Widths(fs) == [fs[0].width] + Widths(fs[1..]) && Values(fs) == [fs[0].value] + Values(fs[1..])
  {}

  /** A record is read back from its bytes. */
  lemma {:induction false} ReadBytes(fs: seq<Field>, r: seq<byte>)
    requires InRange(fs)
    ensures ReadFields(Widths(fs), Bytes(fs) + r) == Some((Values(fs), r))
  {
    hide LE, FromLE, Bound;
    if fs == [] {
      assert Bytes(fs) + r == r;
    } else {
      hide ReadFields;
      ReadBytes(fs[1..], r);
      FieldsCons(fs);
      ReadField(fs[0], Widths(fs[1..]), Bytes(fs[1..]) + r);
      assert Bytes(fs) + r == LE(fs[0].width, fs[0].value) + (Bytes(fs[1..]) + r);
    }
  }

  // ---- the layout ----------------------------------------------------------------------------

  const LOCAL_SIGNATURE: nat := 0x04034B50
  const CENTRAL_SIGNATURE: nat := 0x02014B50
  const END_SIGNATURE: nat := 0x06054B50

  function Local(crc: nat, size: nat, nameLength: nat): seq<Field> {
    [Field(4, LOCAL_SIGNATURE), Field(2, 20), Field(2, 2048), Field(2, 0), Field(2, 0), Field(2, 0x21),
     Field(4, crc), Field(4, size), Field(4, size), Field(2, nameLength), Field(2, 0)]
  }

  function Central(crc: nat, size: nat, nameLength: nat, offset: nat): seq<Field> {
    [Field(4, CENTRAL_SIGNATURE), Field(2, 20), Field(2, 20), Field(2, 2048), Field(2, 0), Field(2, 0),
     Field(2, 0x21), Field(4, crc), Field(4, size), Field(4, size), Field(2, nameLength), Field(2, 0),
     Field(2, 0), Field(2, 0), Field(2, 0), Field(4, 0), Field(4, offset)]
  }

  function End(count: nat, size: nat, offset: nat): seq<Field> {
    [Field(4, END_SIGNATURE), Field(2, 0), Field(2, 0), Field(2, count), Field(2, count),
     Field(4, size), Field(4, offset), Field(2, 0)]
  }

  const LOCAL_FORMAT: seq<nat> := [4, 2, 2, 2, 2, 2, 4, 4, 4, 2, 2]
  const CENTRAL_FORMAT: seq<nat> := [4, 2, 2, 2, 2, 2, 2, 4, 4, 4, 2, 2, 2, 2, 2, 4, 4]
  const END_FORMAT: seq<nat> := [4, 2, 2, 2, 2, 4, 4, 2]

  function Bits(content: seq<byte>): seq<bv8> { seq(|content|, i requires 0 <= i < |content| => content[i] as bv8) }

  function CrcOf(content: seq<byte>): (c: nat)
    ensures c < TWO32
  {
    Crc.Serial(Bits(content)) as nat
  }

  /** The conversion to a 32-bit number. */
  function U32(n: nat): (r: nat)
    ensures r < TWO32
  {
    n % TWO32
  }

  /** The conversion to a 16-bit number. */
  function U16(n: nat): (r: nat)
    ensures r < 65536
  {
    n % 65536
  }

  function LocalPart(e: Entry): seq<byte> {
    Bytes(Local(CrcOf(e.content), U32(|e.content|), U16(|e.name|))) + e.name + e.content
  }

  function CentralPart(e: Entry, offset: nat): seq<byte> {
    Bytes(Central(CrcOf(e.content), U32(|e.content|), U16(|e.name|), offset)) + e.name
  }

  function Locals(es: seq<Entry>): seq<byte> {
    if es == [] then [] else LocalPart(es[0]) + Locals(es[1..])
  }

  /** The central directory of entries of which the first one's local header is at `base`. */
  function Directory(es: seq<Entry>, base: nat): seq<byte> {
    if es == [] then [] else
    CentralPart(es[0], U32(base)) + Directory(es[1..], base + |LocalPart(es[0])|)
  }

  function EndPart(es: seq<Entry>): seq<byte> {
    Bytes(End(U16(|es|), U32(|Directory(es, 0)|), U32(|Locals(es)|)))
  }

  function Archive(es: seq<Entry>): seq<byte> { Locals(es) + Directory(es, 0) + EndPart(es) }

  // ---- WriteZipArchive, up to the writing of the file ------------------------------------------

  const BACKSLASH: byte := 0x5C
  const DOT: byte := 0x2E

  predicate ValidEntry(e: Entry) {
    && 0 < |e.name| <= 250 && BACKSLASH !in e.name
    && (forall i | 0 <= i < |e.name| - 1 :: !(e.name[i] == DOT && e.name[i + 1] == DOT))
    && |e.content| < TWO32
  }

  /** `out` is `before` and the fields written after it. */
  ghost predicate Wrote(out: seq<byte>, before: seq<byte>, fs: seq<Field>) { out == before + Bytes(fs) }

  method PutU16(before: seq<byte>, value: nat, ghost start: seq<byte>, ghost fs: seq<Field>)
    returns (out: seq<byte>, ghost gs: seq<Field>)
    requires value < 65536 && Wrote(before, start, fs)
    ensures gs == fs + [Field(2, value)] && Wrote(out, start, gs)
    ensures out == before + LE(2, value)
  {
    TwoBytes(value);
    out := before + [value % 256];
    out := out + [value / 256 % 256];
    gs := fs + [Field(2, value)];
    BytesSnoc(fs, Field(2, value));
  }

  method PutU32(before: seq<byte>, value: nat, ghost start: seq<byte>, ghost fs: seq<Field>)
    returns (out: seq<byte>, ghost gs: seq<Field>)
    requires value < TWO32 && Wrote(before, start, fs)
    ensures gs == fs + [Field(4, value)] && Wrote(out, start, gs)
    ensures out == before + LE(4, value)
  {
    FourBytes(value);
    out := before + [value % 256];
    out := out + [value / 0x100 % 256];
    out := out + [value / 0x10000 % 256];
    out := out + [value / 0x1000000 % 256];
    gs := fs + [Field(4, value)];
    BytesSnoc(fs, Field(4, value));
  }

  lemma TwoBytes(v: nat)
    ensures LE(2, v) == [v % 256, v / 0x100 % 256]
  {
    assert LE(1, v / 0x100) == [v / 0x100 % 256];
  }

  lemma FourBytes(v: nat)
    ensures LE(4, v) == [v % 256, v / 0x100 % 256, v / 0x10000 % 256, v / 0x1000000 % 256]
  {
    var a := v / 0x100;
    var b := a / 0x100;
    var c := b / 0x100;
    assert b == v / 0x10000 && c == v / 0x1000000;
    assert LE(1, c) == [c % 256];
    assert LE(2, b) == [b % 256, c % 256];
    assert LE(3, a) == [a % 256, b % 256, c % 256];
  }

  method PutLocal(archive: seq<byte>, crc: nat, size: nat, nameLength: nat) returns (out: seq<byte>)
    requires crc < TWO32 && size < TWO32 && nameLength < 65536
    ensures out == archive + Bytes(Local(crc, size, nameLength))
  {
    hide Bytes, LE, Wrote;
    ghost var fs := [];
    WroteNothing(archive);
    out, fs := PutU32(archive, LOCAL_SIGNATURE, archive, fs);
    out, fs := PutU16(out, 20, archive, fs);
    out, fs := PutU16(out, 2048, archive, fs);
    out, fs := PutU16(out, 0, archive, fs);
    out, fs := PutU16(out, 0, archive, fs);
    out, fs := PutU16(out, 0x21, archive, fs);
    out, fs := PutU32(out, crc, archive, fs);
    out, fs := PutU32(out, size, archive, fs);
    out, fs := PutU32(out, size, archive, fs);
    out, fs := PutU16(out, nameLength, archive, fs);
    out, fs := PutU16(out, 0, archive, fs);
    assert fs == Local(crc, size, nameLength);
    WroteAll(out, archive, fs);
  }

  method PutCentral(directory: seq<byte>, crc: nat, size: nat, nameLength: nat, offset: nat) returns (out: seq<byte>)
    requires crc < TWO32 && size < TWO32 && nameLength < 65536 && offset < TWO32
    ensures out == directory + Bytes(Central(crc, size, nameLength, offset))
  {
    hide Bytes, LE, Wrote;
    ghost var fs := [];
    WroteNothing(directory);
    out, fs := PutU32(directory, CENTRAL_SIGNATURE, directory, fs);
    out, fs := PutU16(out, 20, directory, fs);
    out, fs := PutU16(out, 20, directory, fs);
    out, fs := PutU16(out, 2048, directory, fs);
    out, fs := PutU16(out, 0, directory, fs);
    out, fs := PutU16(out, 0, directory, fs);
    out, fs := PutU16(out, 0x21, directory, fs);
    out, fs := PutU32(out, crc, directory, fs);
    out, fs := PutU32(out, size, directory, fs);
    assert fs == Central(crc, size, nameLength, offset)[..9];
    out := PutCentralRest(out, crc, size, nameLength, offset, directory);
  }

  method PutCentralRest(before: seq<byte>, crc: nat, size: nat, nameLength: nat, offset: nat, ghost directory: seq<byte>)
    returns (out: seq<byte>)
    requires crc < TWO32 && size < TWO32 && nameLength < 65536 && offset < TWO32
    requires Wrote(before, directory, Central(crc, size, nameLength, offset)[..9])
    ensures out == directory + Bytes(Central(crc, size, nameLength, offset))
  {
    hide Bytes, LE, Wrote;
    ghost var start := Central(crc, size, nameLength, offset)[..9];
    ghost var fs := start;
    out, fs := PutU32(before, size, directory, fs);
    out, fs := PutU16(out, nameLength, directory, fs);
    out, fs := PutU16(out, 0, directory, fs);
    out, fs := PutU16(out, 0, directory, fs);
    out, fs := PutU16(out, 0, directory, fs);
    out, fs := PutU16(out, 0, directory, fs);
    out, fs := PutU32(out, 0, directory, fs);
    out, fs := PutU32(out, offset, directory, fs);
    assert fs == Central(crc, size, nameLength, offset);
    WroteAll(out, directory, fs);
  }

  method PutEnd(archive: seq<byte>, count: nat, size: nat, offset: nat) returns (out: seq<byte>)
    requires count < 65536 && size < TWO32 && offset < TWO32
    ensures out == archive + Bytes(End(count, size, offset))
  {
    hide Bytes, LE, Wrote;
    ghost var fs := [];
    WroteNothing(archive);
    out, fs := PutU32(archive, END_SIGNATURE, archive, fs);
    out, fs := PutU16(out, 0, archive, fs);
    out, fs := PutU16(out, 0, archive, fs);
    out, fs := PutU16(out, count, archive, fs);
    out, fs := PutU16(out, count, archive, fs);
    out, fs := PutU32(out, size, archive, fs);
    out, fs := PutU32(out, offset, archive, fs);
    out, fs := PutU16(out, 0, archive, fs);
    assert fs == End(count, size, offset);
    WroteAll(out, archive, fs);
  }

  lemma WroteNothing(out: seq<byte>)
    ensures Wrote(out, out, [])
  {
    assert out + [] == out;
  }

  lemma WroteAll(out: seq<byte>, before: seq<byte>, fs: seq<Field>)
    requires Wrote(out, before, fs)
    ensures out == before + Bytes(fs)
  {}

  lemma {:induction false} LocalsSnoc(es: seq<Entry>, e: Entry)
    ensures Locals(es + [e]) == Locals(es) + LocalPart(e)
  {
    hide LocalPart;
    if es == [] {
      assert es + [e] == [e] && [e][1..] == [];
      assert Locals([e]) == LocalPart(e) + Locals([]);
    } else {
      LocalsSnoc(es[1..], e);
      assert (es + [e])[1..] == es[1..] + [e];
    }
  }

  lemma {:induction false} DirectorySnoc(es: seq<Entry>, e: Entry, base: nat)
    ensures Directory(es + [e], base) == Directory(es, base) + CentralPart(e, U32(base + |Locals(es)|))
    decreases |es|
  {
    hide LocalPart, CentralPart;
    if es == [] {
      assert es + [e] == [e] && [e][1..] == [];
      assert Directory([e], base) == CentralPart(e, U32(base)) + [];
    } else {
      var next := base + |LocalPart(es[0])|;
      DirectorySnoc(es[1..], e, next);
      assert (es + [e])[1..] == es[1..] + [e];
      assert next + |Locals(es[1..])| == base + |Locals(es)|;
    }
  }

  method ContentCrc(content: seq<byte>) returns (crc: nat)
    ensures crc == CrcOf(content)
  {
    var value := Crc.Crc32(Bits(content));
    crc := value as nat;
  }

  predicate AllValid(es: seq<Entry>) { forall i | 0 <= i < |es| :: ValidEntry(es[i]) }

  lemma AllValidNone()
    ensures AllValid([])
  {}

  lemma ValidNext(es: seq<Entry>, i: nat)
    requires i < |es| && AllValid(es[..i])
    ensures AllValid(es[..i + 1]) <==> ValidEntry(es[i])
    ensures !ValidEntry(es[i]) ==> !AllValid(es)
  {
    hide ValidEntry;
    assert es[..i + 1] == es[..i] + [es[i]];
    assert es[..i + 1][i] == es[i];
  }

  /** The state of the loop of `WriteZipArchive` after the entries `es`. */
  ghost predicate Built(archive: seq<byte>, directory: seq<byte>, offset: nat, count: nat, es: seq<Entry>) {
    && archive == Locals(es) && directory == Directory(es, 0)
    && offset == U32(|archive|) && count == U16(|es|)
  }

  lemma BuiltNothing(es: seq<Entry>)
    ensures Built([], [], 0, 0, es[..0])
  {}

  lemma BuiltStep(es: seq<Entry>, i: nat, archive: seq<byte>, directory: seq<byte>, offset: nat, count: nat)
    requires i < |es| && Built(archive, directory, offset, count, es[..i])
    ensures var a, d := archive + LocalPart(es[i]), directory + CentralPart(es[i], offset);
            Built(a, d, U32(|a|), U16(count + 1), es[..i + 1])
  {
    hide LocalPart, CentralPart, Locals, Directory, U32;
    LocalsSnoc(es[..i], es[i]);
    DirectorySnoc(es[..i], es[i], 0);
    assert es[..i + 1] == es[..i] + [es[i]];
  }

  /** The archive in memory: two growing buffers, a 32-bit offset and a 16-bit count. */
  method BuildArchive(entries: seq<Entry>) returns (r: Option<seq<byte>>)
    ensures r == if entries != [] && AllValid(entries) then Some(Archive(entries)) else None
  {
    if entries == [] { return None; }
    hide AllValid, ValidEntry, LocalPart, CentralPart, Locals, Directory, Bytes, End, U32, U16, Built;
    AllValidNone();
    BuiltNothing(entries);
    var archive: seq<byte>, directory: seq<byte> := [], [];
    var offset: nat, count: nat := 0, 0;
    for i := 0 to |entries|
      invariant offset < TWO32 && AllValid(entries[..i]) && Built(archive, directory, offset, count, entries[..i])
    {
      ValidNext(entries, i);
      if !ValidEntry(entries[i]) { return None; }
      BuiltStep(entries, i, archive, directory, offset, count);
      archive, directory := AppendEntry(archive, directory, entries[i], offset);
      offset := U32(|archive|);
      count := U16(count + 1);
    }
    assert entries[..|entries|] == entries;
    BuiltAll(archive, directory, offset, count, entries);
    var directoryOffset := U32(|archive|);
    archive := archive + directory;
    archive := PutEnd(archive, count, U32(|directory|), directoryOffset);
    return Some(archive);
  }

  lemma BuiltAll(archive: seq<byte>, directory: seq<byte>, offset: nat, count: nat, es: seq<Entry>)
    requires Built(archive, directory, offset, count, es)
    ensures count < 65536
    ensures archive + directory + Bytes(End(count, U32(|directory|), U32(|archive|))) == Archive(es)
  {
    hide Bytes, End, Locals, Directory, U32;
  }

  /** The body of the loop for an entry that passed the checks. */
  method AppendEntry(archive: seq<byte>, directory: seq<byte>, e: Entry, offset: nat)
    returns (a: seq<byte>, d: seq<byte>)
    requires offset < TWO32
    ensures a == archive + LocalPart(e) && d == directory + CentralPart(e, offset)
  {
    hide CrcOf, Bytes, Local, Central;
    var crc := ContentCrc(e.content);
    var size := U32(|e.content|);
    var nameLength := U16(|e.name|);
    a := PutLocal(archive, crc, size, nameLength);
    a := a + e.name;
    a := a + e.content;
    d := PutCentral(directory, crc, size, nameLength, offset);
    d := d + e.name;
  }
}
