/** The persisted identity of the running engine, as `ProcessManager::SaveRecord` writes it and
    `LoadRecord` reads it.  An image path is held as its UTF-8 text. */
module ProcessRecords {
  import opened Texts
  import opened Utf8

  datatype Record = Record(pid: nat, creationTime: nat, image: string)

  /** What `ProcessRecord{}` is: no identity. */
  const NO_RECORD: Record := Record(0, 0, "")

  const MAX_CONTENT: nat := 8192
  const MAX_IMAGE: nat := 1024

  predicate Valid(r: Record) { r.pid != 0 && r.creationTime != 0 && r.image != "" }

  /** The widths of the two numbers. */
  predicate InRange(r: Record) { r.pid < TWO32 && r.creationTime < TWO64 }

  // ---- SaveRecord --------------------------------------------------------------------------

  predicate Saveable(r: Record) {
    Valid(r) && '\r' !in r.image && '\n' !in r.image && WellFormed(r.image)
  }

  function RecordText(r: Record): string {
    "pid=" + Decimal(r.pid) + "\n" + "ctime=" + Decimal(r.creationTime) + "\n" + "image=" + r.image + "\n"
  }

  // ---- LoadRecord --------------------------------------------------------------------------

  predicate IsBlankChar(c: char) { c == ' ' || c == '\t' || c == '\r' || c == '\n' }

  function TrimLeft(s: string): (r: string)
    ensures |r| <= |s|
  {
    if s != "" && IsBlankChar(s[0]) then TrimLeft(s[1..]) else s
  }

  function TrimRight(s: string): (r: string)
    ensures r <= s
  {
    if s != "" && IsBlankChar(s[|s| - 1]) then TrimRight(s[..|s| - 1]) else s
  }

  function Trim(s: string): string { TrimRight(TrimLeft(s)) }

  /** An unsigned number below `bound`, as `std::from_chars` reads it when it must use all of the text. */
  function Unsigned(s: string, bound: nat): Option<nat> {
    if s != "" && AllDigits(s) && Value(s) < bound then Some(Value(s)) else None
  }

  /** The conversion to UTF-16, which refuses ill-formed text by giving an empty one. */
  function Wide(s: string): string { if WellFormed(s) then s else "" }

  /** The fields read so far. */
  datatype Fields = Fields(pid: Option<nat>, time: Option<nat>, image: Option<string>)

  function Field(f: Fields, key: string, val: string): Option<Fields> {
    if key == "pid" then
      if f.pid.Some? || Unsigned(val, TWO32).None? then None else Some(f.(pid := Unsigned(val, TWO32)))
    else if key == "ctime" then
      if f.time.Some? || Unsigned(val, TWO64).None? then None else Some(f.(time := Unsigned(val, TWO64)))
    else if key == "image" then
      if f.image.Some? || val == "" || |val| > MAX_IMAGE then None else Some(f.(image := Some(Wide(val))))
    else None
  }

  function Line(f: Fields, line: string): Option<Fields> {
    var t := Trim(line);
    var eq := Find(t, '=', 0);
    if eq == |t| then None else Field(f, t[..eq], t[eq + 1..])
  }

  function FirstLine(content: string): string { content[..Find(content, '\n', 0)] }

  function AfterLine(content: string): (r: string)
    ensures content != "" ==> |r| < |content|
  {
    var eol := Find(content, '\n', 0);
    if eol == |content| then "" else content[eol + 1..]
  }

  /** The record in the rest of a file, with the fields `f` read before. */
  function LoadFrom(content: string, f: Fields): Record
    decreases |content|
  {
    if content == "" then Finished(f) else
    match Line(f, FirstLine(content))
    case None => NO_RECORD
    case Some(g) => LoadFrom(AfterLine(content), g)
  }

  function Finished(f: Fields): Record {
    if f.pid.Some? && f.time.Some? && f.image.Some? && Valid(Record(f.pid.value, f.time.value, f.image.value))
    then Record(f.pid.value, f.time.value, f.image.value) else NO_RECORD
  }

  const NO_FIELDS: Fields := Fields(None, None, None)

  function Loaded(content: string): Record {
    if |content| > MAX_CONTENT then NO_RECORD else LoadFrom(content, NO_FIELDS)
  }

  method TrimText(s: string) returns (r: string)
    ensures r == Trim(s)
  {
    var b, e := 0, |s|;
    assert s[0..] == s;
    while b < e && IsBlankChar(s[b])
      invariant 0 <= b <= e == |s|
      invariant TrimLeft(s[b..]) == TrimLeft(s)
    {
      assert s[b..][1..] == s[b + 1..];
      b := b + 1;
    }
    assert s[b..e] == s[b..];
    while e > b && IsBlankChar(s[e - 1])
      invariant b <= e <= |s|
      invariant TrimRight(s[b..e]) == Trim(s)
    {
      assert s[b..e][..e - b - 1] == s[b..e - 1] && s[b..e][e - b - 1] == s[e - 1];
      e := e - 1;
    }
    return s[b..e];
  }

  /** One line of the loop of `LoadRecord`: the field it names, checked and stored. */
  method ReadField(f: Fields, line: string) returns (r: Option<Fields>)
    ensures r == Line(f, line)
  {
    hide Value, WellFormed;
    var trimmed := TrimText(line);
    var eq := Find(trimmed, '=', 0);
    if eq == |trimmed| { return None; }
    var key, val := trimmed[..eq], trimmed[eq + 1..];
    if key == "pid" {
      if f.pid.Some? { return None; }
      var parsed := Unsigned(val, TWO32);
      if parsed.None? { return None; }
      return Some(f.(pid := parsed));
    } else if key == "ctime" {
      if f.time.Some? { return None; }
      var parsed := Unsigned(val, TWO64);
      if parsed.None? { return None; }
      return Some(f.(time := parsed));
    } else if key == "image" {
      if f.image.Some? || val == "" || |val| > MAX_IMAGE { return None; }
      return Some(f.(image := Some(Wide(val))));
    }
    return None;
  }

  /** Where the line after the one at `pos` starts. */
  function NextLine(content: string, pos: nat): (next: nat)
    requires pos < |content|
    ensures pos < next <= |content|
  {
    var eol := Find(content, '\n', pos);
    if eol == |content| then |content| else eol + 1
  }

  lemma LinesAt(content: string, pos: nat)
    requires pos < |content|
    ensures FirstLine(content[pos..]) == content[pos..Find(content, '\n', pos)]
    ensures AfterLine(content[pos..]) == content[NextLine(content, pos)..]
  {
    hide Find;
    FindShift(content, '\n', pos);
    SliceShift(content, pos, Find(content, '\n', pos));
  }

  lemma LoadFromAt(content: string, pos: nat, f: Fields)
    requires pos < |content|
    ensures LoadFrom(content[pos..], f)
         == match Line(f, content[pos..Find(content, '\n', pos)])
            case None => NO_RECORD
            case Some(g) => LoadFrom(content[NextLine(content, pos)..], g)
  {
    hide Line, Find, FirstLine, AfterLine, NextLine;
    LinesAt(content, pos);
  }

  /** The file is read line by line; anything unexpected invalidates the whole record. */
  method LoadRecord(content: string) returns (r: Record)
    ensures r == Loaded(content)
  {
    hide Line, LoadFrom, Finished;
    if |content| > MAX_CONTENT { return NO_RECORD; }
    var f := NO_FIELDS;
    var pos := 0;
    assert content[0..] == content;
    while pos < |content|
      invariant pos <= |content|
      invariant LoadFrom(content[pos..], f) == Loaded(content)
    {
      LoadFromAt(content, pos, f);
      var eol := Find(content, '\n', pos);
      var read := ReadField(f, content[pos..eol]);
      if read.None? { return NO_RECORD; }
      f := read.value;
      pos := if eol == |content| then |content| else eol + 1;
    }
    assert content[pos..] == "";
    NoLines(f);
    r := Finished(f);
  }

  lemma NoLines(f: Fields)
    ensures LoadFrom("", f) == Finished(f)
  {}

  // ---- the round trip ------------------------------------------------------------------------

  lemma LineAndRest(line: string, rest: string)
    requires '\n' !in line
    ensures FirstLine(line + "\n" + rest) == line && AfterLine(line + "\n" + rest) == rest
  {
    var s := line + "\n" + rest;
    FindConcat(line, '\n', rest);
    assert s == line + ['\n'] + rest && s[..|line|] == line && s[|line| + 1..] == rest;
  }

  lemma LoadLine(line: string, rest: string, f: Fields)
    requires '\n' !in line && Line(f, line).Some?
    ensures LoadFrom(line + "\n" + rest, f) == LoadFrom(rest, Line(f, line).value)
  {
    hide Line;
    LineAndRest(line, rest);
    hide FirstLine, AfterLine;
  }

  lemma LoadBadLine(line: string, rest: string, f: Fields)
    requires '\n' !in line && Line(f, line).None?
    ensures LoadFrom(line + "\n" + rest, f) == NO_RECORD
  {
    hide Line;
    LineAndRest(line, rest);
    hide FirstLine, AfterLine;
  }

  lemma KeyLine(f: Fields, key: string, val: string, line: string)
    requires '=' !in key && Trim(line) == key + "=" + val
    ensures Line(f, line) == Field(f, key, val)
  {
    hide Field;
    var t := key + "=" + val;
    FindConcat(key, '=', val);
    assert t == key + ['='] + val && t[..|key|] == key && t[|key| + 1..] == val;
  }

  predicate NoEdge(s: string) { s != "" && !IsBlankChar(s[0]) && !IsBlankChar(s[|s| - 1]) }

  lemma TrimNothing(s: string)
    requires NoEdge(s)
    ensures Trim(s) == s
  {}

  lemma NumberLine(key: string, n: nat, bound: nat)
    requires key != "" && !IsBlankChar(key[0]) && n < bound
    ensures var line := key + "=" + Decimal(n);
            Trim(line) == line && Unsigned(Decimal(n), bound) == Some(n)
  {
    ValueOfDecimal(n);
    var line := key + "=" + Decimal(n);
    assert line[0] == key[0] && line[|line| - 1] == Decimal(n)[|Decimal(n)| - 1];
    assert IsDigit(line[|line| - 1]);
    TrimNothing(line);
  }

  lemma DecimalLines(n: nat)
    ensures '\n' !in Decimal(n)
  {
    assert AllDigits(Decimal(n));
  }

  lemma {:induction false} TrimRightAfter(a: string, s: string)
    requires a != "" && !IsBlankChar(a[|a| - 1])
    ensures TrimRight(a + s) == a + TrimRight(s)
  {
    if s == "" {
      assert a + s == a;
    } else if IsBlankChar(s[|s| - 1]) {
      assert (a + s)[..|a + s| - 1] == a + s[..|s| - 1];
      TrimRightAfter(a, s[..|s| - 1]);
    }
  }

  lemma {:induction false} TrimRightSame(s: string)
    ensures TrimRight(s) == s <==> s == "" || !IsBlankChar(s[|s| - 1])
    ensures |TrimRight(s)| <= |s|
  {
    if s != "" && IsBlankChar(s[|s| - 1]) { TrimRightSame(s[..|s| - 1]); }
  }

  function Ten(k: nat): nat { if k == 0 then 1 else 10 * Ten(k - 1) }

  lemma {:induction false} DecimalSize(n: nat, k: nat)
    requires 1 <= k && n < Ten(k)
    ensures |Decimal(n)| <= k
  {
    if n >= 10 {
      assert k >= 2;
      DecimalSize(n / 10, k - 1);
    }
  }

  lemma NumbersShort(r: Record)
    requires InRange(r)
    ensures |Decimal(r.pid)| <= 20 && |Decimal(r.creationTime)| <= 20
  {
    assert Ten(4) == 10_000;
    assert Ten(8) == 100_000_000;
    assert Ten(12) == 1_000_000_000_000;
    assert Ten(16) == 10_000_000_000_000_000;
    assert Ten(20) == 100_000_000_000_000_000_000;
    DecimalSize(r.pid, 20);
    DecimalSize(r.creationTime, 20);
  }

  lemma TextInLines(r: Record)
    ensures RecordText(r) == "pid=" + Decimal(r.pid) + "\n"
              + ("ctime=" + Decimal(r.creationTime) + "\n" + ("image=" + r.image + "\n" + ""))
  {}

  lemma ImageLine(image: string, f: Fields)
    ensures Line(f, "image=" + image) == Field(f, "image", TrimRight(image))
  {
    hide Field, TrimRight;
    TrimRightAfter("image=", image);
    assert TrimLeft("image=" + image) == "image=" + image;
    KeyLine(f, "image", TrimRight(image), "image=" + image);
  }

  lemma LoadImage(image: string, f: Fields)
    requires '\n' !in image && f.image.None?
    ensures var v := TrimRight(image);
            LoadFrom("image=" + image + "\n" + "", f)
              == if v == "" || |v| > MAX_IMAGE then NO_RECORD else Finished(f.(image := Some(Wide(v))))
  {
    hide TrimRight, Finished, WellFormed;
    ImageLine(image, f);
    var line := "image=" + image;
    if Line(f, line).None? { LoadBadLine(line, "", f); } else { LoadLine(line, "", f); }
  }

  lemma LoadedText(r: Record)
    requires Saveable(r) && InRange(r)
    ensures var f := Fields(Some(r.pid), Some(r.creationTime), None);
            LoadFrom(RecordText(r), NO_FIELDS) == LoadFrom("image=" + r.image + "\n" + "", f)
  {
    hide LoadFrom, Line, WellFormed, Decimal, Trim, Unsigned;
    TextInLines(r);
    DecimalLines(r.pid);
    DecimalLines(r.creationTime);
    NumberLine("pid", r.pid, TWO32);
    NumberLine("ctime", r.creationTime, TWO64);
    assert "pid" + "=" == "pid=" && "ctime" + "=" == "ctime=";
    var f1 := Fields(Some(r.pid), None, None);
    KeyLine(NO_FIELDS, "pid", Decimal(r.pid), "pid=" + Decimal(r.pid));
    KeyLine(f1, "ctime", Decimal(r.creationTime), "ctime=" + Decimal(r.creationTime));
    var tail := "image=" + r.image + "\n" + "";
    LoadLine("pid=" + Decimal(r.pid), "ctime=" + Decimal(r.creationTime) + "\n" + tail, NO_FIELDS);
    LoadLine("ctime=" + Decimal(r.creationTime), tail, f1);
  }

  /** Reading a saved record back gives the same identity exactly when the image has at most 1024
      bytes and does not end in a blank or a tab; `SaveRecord` checks neither. */
  lemma LoadOfSave(r: Record)
    requires Saveable(r) && InRange(r)
    ensures Loaded(RecordText(r)) == r
       <==> |r.image| <= 1024 && r.image[|r.image| - 1] != ' ' && r.image[|r.image| - 1] != '\t'
  {
    hide LoadFrom, WellFormed, Decimal, TrimRight;
    NumbersShort(r);
    LoadedText(r);
    LoadImage(r.image, Fields(Some(r.pid), Some(r.creationTime), None));
    TrimRightSame(r.image);
    var last := r.image[|r.image| - 1];
    assert last in r.image;
  }
}
