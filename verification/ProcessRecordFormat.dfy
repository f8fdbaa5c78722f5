/** Which files are process records. */
module ProcessRecordFormat {
  import opened Texts
  import opened Utf8
  import opened ProcessRecords

  // ---- the format ---------------------------------------------------------------------------------

  /** The lines of a file; a line feed at its end begins no further line. */
  function Lines(content: string): (r: seq<string>)
    decreases |content|
  {
    if content == "" then [] else [FirstLine(content)] + Lines(AfterLine(content))
  }

  datatype Key = Pid | Time | Image

  function KeyText(k: Key): string { match k case Pid => "pid" case Time => "ctime" case Image => "image" }

  /** Digits only, of the given value. */
  predicate Spells(text: string, n: nat, bound: nat) { text != "" && AllDigits(text) && Texts.Value(text) == n < bound }

  /** What the value of a field must be. */
  predicate IsValue(k: Key, text: string, r: Record) {
    match k
    case Pid => Spells(text, r.pid, 4_294_967_296)
    case Time => Spells(text, r.creationTime, 18_446_744_073_709_551_616)
    case Image => 1 <= |text| <= 1024 && WellFormed(text) && text == r.image
  }

  /** Without the blanks around it, the line is the key, an equals sign and the value of the record. */
  ghost predicate Gives(line: string, k: Key, r: Record) {
    exists text: string :: Trim(line) == KeyText(k) + "=" + text && IsValue(k, text, r)
  }

  predicate Different(keys: seq<Key>) { forall i, j | 0 <= i < j < |keys| :: keys[i] != keys[j] }

  /** The lines give these fields of the record, each once. */
  ghost predicate Fill(lines: seq<string>, keys: seq<Key>, r: Record) {
    |keys| == |lines| && Different(keys) && forall i | 0 <= i < |lines| :: Gives(lines[i], keys[i], r)
  }

  /** At most 8 KiB, and three lines in any order that give the three fields. */
  ghost predicate Spelled(content: string, r: Record) {
    |content| <= 8192 && |Lines(content)| == 3 && exists keys: seq<Key> :: Fill(Lines(content), keys, r)
  }

  // ---- one line -------------------------------------------------------------------------------------

  predicate Has(f: Fields, k: Key) {
    match k case Pid => f.pid.Some? case Time => f.time.Some? case Image => f.image.Some?
  }

  /** The fields read so far are those of the record. */
  predicate Agrees(f: Fields, r: Record) {
    && (f.pid.Some? ==> f.pid.value == r.pid) && (f.time.Some? ==> f.time.value == r.creationTime)
    && (f.image.Some? ==> f.image.value == r.image)
  }

  function With(f: Fields, k: Key, r: Record): Fields {
    match k
    case Pid => f.(pid := Some(r.pid))
    case Time => f.(time := Some(r.creationTime))
    case Image => f.(image := Some(r.image))
  }

  lemma KeysDiffer()
    ensures forall k, l: Key :: KeyText(k) == KeyText(l) ==> k == l
    ensures forall k: Key :: '=' !in KeyText(k)
  {
    assert "pid"[0] == 'p' && "ctime"[0] == 'c' && "image"[0] == 'i';
  }

  /** A line that gives a new field of the record adds it. */
  lemma GivenLine(f: Fields, line: string, k: Key, r: Record)
    requires Gives(line, k, r) && !Has(f, k)
    ensures Line(f, line) == Some(With(f, k, r))
  {
    hide Trim, WellFormed, Texts.Value;
    KeysDiffer();
    var text: string :| Trim(line) == KeyText(k) + "=" + text && IsValue(k, text, r);
    KeyLine(f, KeyText(k), text, line);
  }

  /** A line that is read as fields of the record gives one of them, and that one is new. */
  lemma ReadLine(f: Fields, line: string, r: Record) returns (k: Key)
    requires Line(f, line).Some? && Agrees(Line(f, line).value, r) && Valid(r)
    ensures Gives(line, k, r) && !Has(f, k) && Line(f, line).value == With(f, k, r)
  {
    hide Trim, WellFormed, Texts.Value;
    var t := Trim(line);
    var eq := Find(t, '=', 0);
    var key, text := t[..eq], t[eq + 1..];
    assert t == key + "=" + text;
    k := if key == "pid" then Pid else if key == "ctime" then Time else Image;
    assert KeyText(k) == key;
    assert IsValue(k, text, r);
  }

  // ---- all lines --------------------------------------------------------------------------------------

  function Missing(f: Fields): nat {
    (if f.pid.None? then 1 else 0) + (if f.time.None? then 1 else 0) + if f.image.None? then 1 else 0
  }

  function LoadLines(lines: seq<string>, f: Fields): Record {
    if lines == [] then Finished(f) else
    match Line(f, lines[0])
    case None => NO_RECORD
    case Some(g) => LoadLines(lines[1..], g)
  }

  lemma {:induction false} LoadsLines(content: string, f: Fields)
    ensures LoadFrom(content, f) == LoadLines(Lines(content), f)
    decreases |content|
  {
    hide Line, FirstLine, AfterLine, Finished;
    if content != "" {
      assert Lines(content)[1..] == Lines(AfterLine(content));
      match Line(f, FirstLine(content))
      case None =>
      case Some(g) => LoadsLines(AfterLine(content), g);
    }
  }

  lemma {:induction false} LoadedAgrees(lines: seq<string>, f: Fields, r: Record)
    requires LoadLines(lines, f) == r && Valid(r)
    ensures Agrees(f, r)
    decreases |lines|
  {
    hide Trim, WellFormed, Texts.Value, Unsigned, Wide;
    if lines != [] { LoadedAgrees(lines[1..], Line(f, lines[0]).value, r); }
  }

  /** The lines left to read give the missing fields of the record. */
  ghost predicate Completes(lines: seq<string>, keys: seq<Key>, f: Fields, r: Record) {
    Fill(lines, keys, r) && |keys| == Missing(f) && (forall i | 0 <= i < |keys| :: !Has(f, keys[i])) && Agrees(f, r)
  }

  lemma {:induction false} LoadedCompletes(lines: seq<string>, f: Fields, r: Record) returns (keys: seq<Key>)
    requires LoadLines(lines, f) == r && Valid(r)
    ensures Completes(lines, keys, f, r)
    decreases |lines|
  {
    hide Line, Gives;
    LoadedAgrees(lines, f, r);
    if lines == [] {
      keys := [];
    } else {
      LoadedAgrees(lines[1..], Line(f, lines[0]).value, r);
      var k := ReadLine(f, lines[0], r);
      var rest := LoadedCompletes(lines[1..], With(f, k, r), r);
      keys := [k] + rest;
      assert forall i | 0 <= i < |rest| :: Has(With(f, k, r), k) && !Has(With(f, k, r), rest[i]);
      assert forall i | 0 < i < |lines| :: lines[i] == lines[1..][i - 1];
    }
  }

  lemma {:induction false} CompletesLoaded(lines: seq<string>, keys: seq<Key>, f: Fields, r: Record)
    requires Completes(lines, keys, f, r) && Valid(r)
    ensures LoadLines(lines, f) == r
    decreases |lines|
  {
    hide Line, Gives;
    if lines != [] {
      var k, rest, g := keys[0], keys[1..], With(f, keys[0], r);
      assert Gives(lines[0], k, r);
      GivenLine(f, lines[0], k, r);
      forall i | 0 <= i < |rest| ensures !Has(g, rest[i]) && Gives(lines[1..][i], rest[i], r) {
        assert rest[i] == keys[i + 1] && keys[0] != keys[i + 1] && lines[1..][i] == lines[i + 1];
        assert Gives(lines[i + 1], keys[i + 1], r);
      }
      assert Different(rest) by {
        forall i, j | 0 <= i < j < |rest| ensures rest[i] != rest[j] { assert keys[i + 1] != keys[j + 1]; }
      }
      CompletesLoaded(lines[1..], rest, g, r);
    }
  }

  /** A file is read as a record exactly when it spells that record. */
  lemma LoadedExactly(content: string, r: Record)
    requires Valid(r)
    ensures Loaded(content) == r <==> Spelled(content, r)
  {
    hide LoadFrom, LoadLines, Lines, Gives, Different;
    LoadsLines(content, NO_FIELDS);
    if Loaded(content) == r {
      var keys := LoadedCompletes(Lines(content), NO_FIELDS, r);
    }
    if Spelled(content, r) {
      var keys: seq<Key> :| Fill(Lines(content), keys, r);
      assert Completes(Lines(content), keys, NO_FIELDS, r);
      CompletesLoaded(Lines(content), keys, NO_FIELDS, r);
    }
  }

  /** The characters that are trimmed: blank, tab, carriage return and line feed. */
  lemma TrimmedExactly(s: string)
    ensures exists before: string, after: string :: s == before + Trim(s) + after && Blanks(before) && Blanks(after)
    ensures Trim(s) != "" ==> !IsBlank(Trim(s)[0]) && !IsBlank(Trim(s)[|Trim(s)| - 1])
  {
    LeftExactly(s);
    RightExactly(TrimLeft(s));
    var left := TrimLeft(s);
    var before, after := s[..|s| - |left|], left[|Trim(s)|..];
    assert s == before + Trim(s) + after;
    if Trim(s) != "" { assert Trim(s)[0] == left[0]; }
  }

  predicate IsBlank(c: char) { c as nat == 0x20 || c as nat == 0x09 || c as nat == 0x0D || c as nat == 0x0A }

  predicate Blanks(s: string) { forall i | 0 <= i < |s| :: IsBlank(s[i]) }

  lemma {:induction false} LeftExactly(s: string)
    ensures var t := TrimLeft(s);
            |t| <= |s| && s[|s| - |t|..] == t && Blanks(s[..|s| - |t|]) && (t != "" ==> !IsBlank(t[0]))
  {
    if s != "" && IsBlankChar(s[0]) {
      LeftExactly(s[1..]);
      var t := TrimLeft(s);
      var cut := s[..|s| - |t|];
      assert cut[1..] == s[1..][..|s[1..]| - |t|];
      assert forall i | 0 < i < |cut| :: cut[i] == cut[1..][i - 1];
    }
  }

  lemma {:induction false} RightExactly(s: string)
    ensures var t := TrimRight(s);
            |t| <= |s| && s[..|t|] == t && Blanks(s[|t|..]) && (t != "" ==> !IsBlank(t[|t| - 1]))
  {
    if s != "" && IsBlankChar(s[|s| - 1]) {
      var front := s[..|s| - 1];
      RightExactly(front);
      var t := TrimRight(s);
      assert s[|t|..] == front[|t|..] + [s[|s| - 1]];
    }
  }
}
