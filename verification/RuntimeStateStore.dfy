/** The persisted runtime state: what is written, what is accepted for writing, what is read. */
module RuntimeStateStore {
  import opened Texts
  import opened Utf8
  import opened Json
  import opened JsonPrinter
  import JsonExact
  import JsonParser
  import JsonQuote
  import JsonTokens
  import JsonUtf8
  import JsonValues
  import UpdateManifest
  import Versions

  datatype State = State(
    current: string,
    previousKnownGood: string,
    pending: string,
    packageSha256: string,
    manifestKeyId: string,
    lastResult: string)

  const LIMITS: Options := Options(64 * 1024, 8, 64)

  const KEYS: seq<string> :=
    ["previous_known_good", "pending", "package_sha256", "manifest_key_id", "last_result"]

  // ---- writing --------------------------------------------------------------------------

  function Optional(s: string): Printed { if s == "" then PNull else PText(s) }

  function StateFields(s: State): Fields {
    More("schema", PInt(1),
    More("current", PText(s.current),
    More("previous_known_good", Optional(s.previousKnownGood),
    More("pending", Optional(s.pending),
    More("package_sha256", Optional(s.packageSha256),
    More("manifest_key_id", Optional(s.manifestKeyId),
    Last("last_result", Optional(s.lastResult))))))))
  }

  function SerializeRuntimeState(s: State): string { Print(PObject(StateFields(s)), 0) + "\n" }

  predicate ValidOptionalVersion(v: string) { v == "" || Versions.Parsed(v).Some? }

  predicate SafeText(s: string, limit: nat) {
    |s| <= limit && forall i | 0 <= i < |s| :: s[i] >= ' ' && s[i] != 0x7F as char
  }

  /** The fields that both `SaveRuntimeState` and `LoadRuntimeState` check. */
  predicate Accepted(s: State) {
    && Versions.Parsed(s.current).Some?
    && ValidOptionalVersion(s.previousKnownGood)
    && ValidOptionalVersion(s.pending)
    && (s.packageSha256 == "" || IsSha256(s.packageSha256))
    && SafeText(s.manifestKeyId, 64)
    && SafeText(s.lastResult, 128)
  }

  // ---- reading --------------------------------------------------------------------------

  /** A text field: empty when missing or null, and nothing when it has another type. */
  function FieldOf(root: map<string, Value>, key: string): Option<string> {
    if key !in root || root[key].Null? then Some("")
    else if root[key].Str? then Some(root[key].s)
    else None
  }

  predicate SchemaOne(root: map<string, Value>) {
    "schema" in root && root["schema"].Num? && JsonValues.AsUInt64(root["schema"].raw) == Some(1)
  }

  function StateOf(root: map<string, Value>): Option<State> {
    if !SchemaOne(root) || "current" !in root || !root["current"].Str? then None else
    match FieldsOf(root, KEYS)
    case None => None
    case Some(texts) => Checked(WithTexts(root["current"].s, texts))
  }

  /** The text fields in the order of their keys, when none of them has another type. */
  function FieldsOf(root: map<string, Value>, keys: seq<string>): (r: Option<seq<string>>)
    ensures r.Some? ==> |r.value| == |keys|
  {
    if keys == [] then Some([]) else
    var before, last := FieldsOf(root, keys[..|keys| - 1]), FieldOf(root, keys[|keys| - 1]);
    if before.None? || last.None? then None else Some(before.value + [last.value])
  }

  function WithTexts(current: string, texts: seq<string>): State
    requires |texts| == 5
  {
    State(current, texts[0], texts[1], texts[2], texts[3], texts[4])
  }

  function Checked(s: State): Option<State> { if Accepted(s) then Some(s) else None }

  /** The state that the bytes of a file hold. */
  function Loaded(bytes: string): Option<State> {
    match Parse(bytes, LIMITS)
    case Some(Obj(root)) => if |root| == 7 then StateOf(root) else None
    case _ => None
  }

  lemma KeysCount()
    ensures |KEYS| == 5
  {}

  lemma {:induction false} FieldsStay(root: map<string, Value>, keys: seq<string>, i: nat)
    requires i <= |keys| && FieldsOf(root, keys[..i]).None?
    ensures FieldsOf(root, keys).None?
  {
    if i == |keys| {
      assert keys[..i] == keys;
    } else {
      assert keys[..|keys| - 1][..i] == keys[..i];
      FieldsStay(root, keys[..|keys| - 1], i);
    }
  }

  lemma FieldsNext(root: map<string, Value>, keys: seq<string>, i: nat, before: seq<string>)
    requires i < |keys| && FieldsOf(root, keys[..i]) == Some(before)
    ensures FieldsOf(root, keys[..i + 1])
         == match FieldOf(root, keys[i]) case None => None case Some(t) => Some(before + [t])
  {
    assert keys[..i + 1][..i] == keys[..i];
  }

  /** The fields of the state, filled one after another. */
  method LoadTexts(root: map<string, Value>) returns (r: Option<seq<string>>)
    ensures r == FieldsOf(root, KEYS)
  {
    hide FieldsOf, KEYS;
    var texts := [];
    assert FieldsOf(root, KEYS[..0]) == Some([]) by { NoFields(root); }
    for i := 0 to |KEYS|
      invariant FieldsOf(root, KEYS[..i]) == Some(texts)
    {
      var key := KEYS[i];
      FieldsNext(root, KEYS, i, texts);
      if key !in root || root[key].Null? {
        texts := texts + [""];
      } else if root[key].Str? {
        texts := texts + [root[key].s];
      } else {
        FieldsStay(root, KEYS, i + 1);
        return None;
      }
    }
    assert KEYS[..|KEYS|] == KEYS;
    return Some(texts);
  }

  lemma NoFields(root: map<string, Value>)
    ensures FieldsOf(root, KEYS[..0]) == Some([])
  {}

  method LoadRuntimeState(bytes: string) returns (r: Option<State>)
    ensures r == Loaded(bytes)
  {
    hide Parse, Accepted, JsonValues.AsUInt64, FieldsOf, KEYS;
    KeysCount();
    var parser := new JsonParser.Parser(bytes, LIMITS);
    var parsed := parser.Run();
    if parsed.None? || !parsed.value.Obj? || |parsed.value.members| != 7 { return None; }
    var root := parsed.value.members;
    if !("schema" in root && root["schema"].Num?) { return None; }
    var schema := JsonValues.AsUInt64(root["schema"].raw);
    if schema != Some(1) || !("current" in root && root["current"].Str?) { return None; }
    var current := root["current"].s;
    if Versions.Parsed(current).None? {
      AcceptedCurrent(current);
      return None;
    }
    var texts := LoadTexts(root);
    if texts.None? { return None; }
    r := Checked(WithTexts(current, texts.value));
  }

  lemma AcceptedCurrent(current: string)
    requires Versions.Parsed(current).None?
    ensures forall s: State | s.current == current :: !Accepted(s)
  {}

  // ---- the round trip ---------------------------------------------------------------------

  predicate Utf8Fields(s: State) {
    && WellFormed(s.current) && WellFormed(s.previousKnownGood) && WellFormed(s.pending)
    && WellFormed(s.packageSha256) && WellFormed(s.manifestKeyId) && WellFormed(s.lastResult)
  }

  lemma VersionUtf8(v: string)
    requires ValidOptionalVersion(v)
    ensures WellFormed(v) && |v| <= 128
  {
    hide Versions.Parsed;
    if v != "" { Versions.ParsedIsAscii(v); }
    AsciiWellFormed(v);
  }

  /** The versions and the hash of an accepted state are ASCII, so only the two free texts can
      be ill-formed. */
  lemma AcceptedUtf8(s: State)
    requires Accepted(s) && WellFormed(s.manifestKeyId) && WellFormed(s.lastResult)
    ensures Utf8Fields(s)
  {
    hide WellFormed, Versions.Parsed;
    VersionUtf8(s.current);
    VersionUtf8(s.previousKnownGood);
    VersionUtf8(s.pending);
    AsciiWellFormed(s.packageSha256);
  }

  lemma KeysUtf8()
    ensures WellFormed("schema") && WellFormed("current") && WellFormed("previous_known_good")
    ensures WellFormed("pending") && WellFormed("package_sha256") && WellFormed("manifest_key_id")
    ensures WellFormed("last_result")
  {
    hide WellFormed;
    AsciiWellFormed("schema");
    AsciiWellFormed("current");
    AsciiWellFormed("previous_known_good");
    AsciiWellFormed("pending");
    AsciiWellFormed("package_sha256");
    AsciiWellFormed("manifest_key_id");
    AsciiWellFormed("last_result");
  }

  lemma FlatSizes(s: State, f6: Fields, f5: Fields, f4: Fields, f3: Fields, f2: Fields, f1: Fields)
    requires f6 == Last("last_result", Optional(s.lastResult))
    requires f5 == More("manifest_key_id", Optional(s.manifestKeyId), f6)
    requires f4 == More("package_sha256", Optional(s.packageSha256), f5)
    requires f3 == More("pending", Optional(s.pending), f4)
    requires f2 == More("previous_known_good", Optional(s.previousKnownGood), f3)
    requires f1 == More("current", PText(s.current), f2)
    ensures FieldLevels(f1) == 0 && FieldsSize(f1) == 6
  {
    assert FieldLevels(f6) == 0 && FieldsSize(f6) == 1;
    assert FieldLevels(f5) == 0 && FieldsSize(f5) == 2;
    assert FieldLevels(f4) == 0 && FieldsSize(f4) == 3;
    assert FieldLevels(f3) == 0 && FieldsSize(f3) == 4;
    assert FieldLevels(f2) == 0 && FieldsSize(f2) == 5;
  }

  lemma StatePrintable(s: State)
    requires Utf8Fields(s)
    ensures Printable(PObject(StateFields(s))) && Levels(PObject(StateFields(s))) == 1 && Size(PObject(StateFields(s))) == 8
  {
    hide WellFormed;
    KeysUtf8();
    var f6 := Last("last_result", Optional(s.lastResult));
    var f5 := More("manifest_key_id", Optional(s.manifestKeyId), f6);
    var f4 := More("package_sha256", Optional(s.packageSha256), f5);
    var f3 := More("pending", Optional(s.pending), f4);
    var f2 := More("previous_known_good", Optional(s.previousKnownGood), f3);
    var f1 := More("current", PText(s.current), f2);
    var f0 := More("schema", PInt(1), f1);
    FlatSizes(s, f6, f5, f4, f3, f2, f1);
    var s1: set<string> := {} + {"schema"};
    var s2 := s1 + {"current"};
    var s3 := s2 + {"previous_known_good"};
    var s4 := s3 + {"pending"};
    var s5 := s4 + {"package_sha256"};
    var s6 := s5 + {"manifest_key_id"};
    assert PrintableFields(f6, s6);
    assert PrintableFields(f5, s5);
    assert PrintableFields(f4, s4);
    assert PrintableFields(f3, s3);
    assert PrintableFields(f2, s2);
    assert PrintableFields(f1, s1);
    assert PrintableFields(f0, {});
    assert FieldLevels(f0) == 0 && FieldsSize(f0) == 7 && StateFields(s) == f0;
  }

  function Texts5(s: State): seq<string> {
    [s.previousKnownGood, s.pending, s.packageSha256, s.manifestKeyId, s.lastResult]
  }

  /** The map of the fields, written out. */
  function StateMap(s: State): map<string, Value> {
    map["last_result" := ValueOf(Optional(s.lastResult))]
       ["manifest_key_id" := ValueOf(Optional(s.manifestKeyId))]
       ["package_sha256" := ValueOf(Optional(s.packageSha256))]
       ["pending" := ValueOf(Optional(s.pending))]
       ["previous_known_good" := ValueOf(Optional(s.previousKnownGood))]
       ["current" := Str(s.current)]
       ["schema" := Num(Decimal(1))]
  }

  lemma StateMapExact(s: State)
    ensures FieldMap(StateFields(s)) == StateMap(s)
  {
    hide Optional;
    var f6 := Last("last_result", Optional(s.lastResult));
    var f5 := More("manifest_key_id", Optional(s.manifestKeyId), f6);
    var f4 := More("package_sha256", Optional(s.packageSha256), f5);
    var f3 := More("pending", Optional(s.pending), f4);
    var f2 := More("previous_known_good", Optional(s.previousKnownGood), f3);
    var f1 := More("current", PText(s.current), f2);
    var m: map<string, Value> := map["last_result" := ValueOf(Optional(s.lastResult))];
    assert m == FieldMap(f6);
    m := m["manifest_key_id" := ValueOf(Optional(s.manifestKeyId))];
    assert m == FieldMap(f5);
    m := m["package_sha256" := ValueOf(Optional(s.packageSha256))];
    assert m == FieldMap(f4);
    m := m["pending" := ValueOf(Optional(s.pending))];
    assert m == FieldMap(f3);
    m := m["previous_known_good" := ValueOf(Optional(s.previousKnownGood))];
    assert m == FieldMap(f2);
    assert m["current" := Str(s.current)] == FieldMap(f1);
  }

  lemma OptionalField(root: map<string, Value>, key: string, t: string)
    requires key in root && root[key] == ValueOf(Optional(t))
    ensures FieldOf(root, key) == Some(t)
  {}

  lemma StateLookups(s: State)
    ensures var root := StateMap(s);
            && "schema" in root && root["schema"] == Num(Decimal(1))
            && "current" in root && root["current"] == Str(s.current)
            && forall i | 0 <= i < 5 :: FieldOf(root, KEYS[i]) == Some(Texts5(s)[i])
  {
    hide FieldOf, Optional, ValueOf;
    var root := StateMap(s);
    OptionalField(root, KEYS[0], s.previousKnownGood);
    OptionalField(root, KEYS[1], s.pending);
    OptionalField(root, KEYS[2], s.packageSha256);
    OptionalField(root, KEYS[3], s.manifestKeyId);
    OptionalField(root, KEYS[4], s.lastResult);
  }

  lemma {:induction false} Collected(root: map<string, Value>, keys: seq<string>, texts: seq<string>)
    requires |keys| == |texts|
    requires forall i | 0 <= i < |keys| :: FieldOf(root, keys[i]) == Some(texts[i])
    ensures FieldsOf(root, keys) == Some(texts)
  {
    hide FieldOf;
    if keys != [] {
      var n := |keys| - 1;
      Collected(root, keys[..n], texts[..n]);
      assert texts == texts[..n] + [texts[n]];
    }
  }

  lemma One()
    ensures JsonValues.AsUInt64(Decimal(1)) == Some(1)
  {
    ValueOfDecimal(1);
    assert Decimal(1) == ['1'];
  }

  lemma StateOfObject(s: State)
    ensures StateOf(FieldMap(StateFields(s))) == Checked(s)
  {
    hide FieldOf, FieldMap, StateFields, StateMap, KEYS, Accepted, JsonValues.AsUInt64;
    var root := FieldMap(StateFields(s));
    KeysCount();
    StateMapExact(s);
    StateLookups(s);
    One();
    Collected(root, KEYS, Texts5(s));
  }

  lemma NarrowText(s: string)
    requires |s| <= 128
    ensures |Print(Optional(s), 2)| <= 770 && |Print(PText(s), 2)| <= 770
  {
    hide JsonQuote.Quote;
    JsonQuote.QuoteSize(s);
  }

  lemma StateNarrow(s: State)
    requires |s.current| <= 128 && |s.previousKnownGood| <= 128 && |s.pending| <= 128
    requires |s.packageSha256| <= 128 && |s.manifestKeyId| <= 128 && |s.lastResult| <= 128
    ensures Narrow(StateFields(s), 0, 770) && FieldCount(StateFields(s)) == 7
  {
    var f6 := Last("last_result", Optional(s.lastResult));
    var f5 := More("manifest_key_id", Optional(s.manifestKeyId), f6);
    var f4 := More("package_sha256", Optional(s.packageSha256), f5);
    var f3 := More("pending", Optional(s.pending), f4);
    var f2 := More("previous_known_good", Optional(s.previousKnownGood), f3);
    var f1 := More("current", PText(s.current), f2);
    assert |Print(PInt(1), 2)| == 1;
    hide Print;
    NarrowText(s.lastResult);
    NarrowText(s.manifestKeyId);
    NarrowText(s.packageSha256);
    NarrowText(s.pending);
    NarrowText(s.previousKnownGood);
    NarrowText(s.current);
    assert Narrow(f6, 0, 770) && FieldCount(f6) == 1;
    assert Narrow(f5, 0, 770) && FieldCount(f5) == 2;
    assert Narrow(f4, 0, 770) && FieldCount(f4) == 3;
    assert Narrow(f3, 0, 770) && FieldCount(f3) == 4;
    assert Narrow(f2, 0, 770) && FieldCount(f2) == 5;
    assert Narrow(f1, 0, 770) && FieldCount(f1) == 6;
  }

  lemma StateSize(s: State)
    requires Accepted(s)
    ensures |SerializeRuntimeState(s)| <= LIMITS.maxBytes && FieldCount(StateFields(s)) == 7
  {
    hide Versions.Parsed, WellFormed, StateFields, PrintFields;
    VersionUtf8(s.current);
    VersionUtf8(s.previousKnownGood);
    VersionUtf8(s.pending);
    StateNarrow(s);
    NarrowSize(StateFields(s), 0, 770);
    var w := 7 * 770 + 8;
    assert Total(2, w) == 2 * w && Total(4, w) == 4 * w && Total(6, w) == 6 * w && Total(7, w) == 7 * w;
  }

  /** A state read back from a file is one that could have been written, and is UTF-8. */
  lemma LoadedIsAccepted(bytes: string)
    requires Loaded(bytes).Some?
    ensures Accepted(Loaded(bytes).value) && Utf8Fields(Loaded(bytes).value)
  {
    hide Parse, Accepted, JsonValues.AsUInt64, KEYS, WellFormed;
    var v := Parse(bytes, LIMITS).value;
    JsonValues.ParsedIsUtf8(bytes, LIMITS);
    KeysCount();
    FieldsUtf8(v.members, KEYS);
  }

  lemma {:induction false} FieldsUtf8(root: map<string, Value>, keys: seq<string>)
    requires JsonValues.AllUtf8(Obj(root)) && FieldsOf(root, keys).Some?
    ensures forall i | 0 <= i < |keys| :: WellFormed(FieldsOf(root, keys).value[i])
  {
    hide WellFormed;
    if keys != [] {
      FieldsUtf8(root, keys[..|keys| - 1]);
      EmptyWellFormed();
    }
  }

  /** Reading back what was written gives the same state exactly when the state is accepted for
      writing and its two free texts are well-formed UTF-8, and nothing at all otherwise.
      `SaveRuntimeState` does not check the second half: it can write a state that no later start
      reads. */
  lemma LoadOfSave(s: State)
    ensures Loaded(SerializeRuntimeState(s))
         == if Accepted(s) && WellFormed(s.manifestKeyId) && WellFormed(s.lastResult) then Some(s) else None
  {
    hide Accepted, Loaded, WellFormed, SerializeRuntimeState;
    if Accepted(s) && WellFormed(s.manifestKeyId) && WellFormed(s.lastResult) {
      SavedLoads(s);
    } else if Loaded(SerializeRuntimeState(s)).Some? {
      OnlySaved(s);
    }
  }

  /** Whatever is read back from a serialized state is that state. */
  lemma OnlySaved(s: State)
    requires Loaded(SerializeRuntimeState(s)).Some?
    ensures Accepted(s) && WellFormed(s.manifestKeyId) && WellFormed(s.lastResult)
  {
    hide Accepted, Parse, Print, StateFields, StateOf, WellFormed, FieldMap, Printable, JsonUtf8.KeysOk;
    var fs := StateFields(s);
    StateKeysOk(s);
    JsonUtf8.AcceptedPrint(PObject(fs), LIMITS);
    PrintedUtf8(s);
    StatePrintable(s);
    PrintedParses(PObject(fs), LIMITS);
    StateOfObject(s);
  }

  lemma StateKeysOk(s: State)
    ensures JsonUtf8.KeysOk(PObject(StateFields(s)))
  {
    hide WellFormed;
    KeysUtf8();
    var f6 := Last("last_result", Optional(s.lastResult));
    var f5 := More("manifest_key_id", Optional(s.manifestKeyId), f6);
    var f4 := More("package_sha256", Optional(s.packageSha256), f5);
    var f3 := More("pending", Optional(s.pending), f4);
    var f2 := More("previous_known_good", Optional(s.previousKnownGood), f3);
    var f1 := More("current", PText(s.current), f2);
    var s1: set<string> := {} + {"schema"};
    var s2 := s1 + {"current"};
    var s3 := s2 + {"previous_known_good"};
    var s4 := s3 + {"pending"};
    var s5 := s4 + {"package_sha256"};
    var s6 := s5 + {"manifest_key_id"};
    assert JsonUtf8.FieldKeysOk(f6, s6);
    assert JsonUtf8.FieldKeysOk(f5, s5);
    assert JsonUtf8.FieldKeysOk(f4, s4);
    assert JsonUtf8.FieldKeysOk(f3, s3);
    assert JsonUtf8.FieldKeysOk(f2, s2);
    assert JsonUtf8.FieldKeysOk(f1, s1);
    assert JsonUtf8.FieldKeysOk(StateFields(s), {});
  }

  lemma OptionalUtf8(t: string)
    requires Printable(Optional(t))
    ensures WellFormed(t)
  {
    EmptyWellFormed();
  }

  lemma PrintedUtf8(s: State)
    requires Printable(PObject(StateFields(s)))
    ensures Utf8Fields(s)
  {
    hide WellFormed, Optional;
    var f6 := Last("last_result", Optional(s.lastResult));
    var f5 := More("manifest_key_id", Optional(s.manifestKeyId), f6);
    var f4 := More("package_sha256", Optional(s.packageSha256), f5);
    var f3 := More("pending", Optional(s.pending), f4);
    var f2 := More("previous_known_good", Optional(s.previousKnownGood), f3);
    var f1 := More("current", PText(s.current), f2);
    assert StateFields(s) == More("schema", PInt(1), f1);
    var s1: set<string> := {} + {"schema"};
    var s2 := s1 + {"current"};
    var s3 := s2 + {"previous_known_good"};
    var s4 := s3 + {"pending"};
    var s5 := s4 + {"package_sha256"};
    assert PrintableFields(f1, s1) && PrintableFields(f2, s2) && PrintableFields(f3, s3);
    assert PrintableFields(f4, s4) && PrintableFields(f5, s5) && PrintableFields(f6, s5 + {"manifest_key_id"});
    assert Printable(PText(s.current));
    OptionalUtf8(s.lastResult);
    OptionalUtf8(s.manifestKeyId);
    OptionalUtf8(s.packageSha256);
    OptionalUtf8(s.pending);
    OptionalUtf8(s.previousKnownGood);
  }

  lemma SavedLoads(s: State)
    requires Accepted(s) && WellFormed(s.manifestKeyId) && WellFormed(s.lastResult)
    ensures Loaded(SerializeRuntimeState(s)) == Some(s)
  {
    hide Accepted, Parse, Print, StateFields, StateOf, WellFormed, FieldMap, Printable;
    var fs := StateFields(s);
    AcceptedUtf8(s);
    StatePrintable(s);
    StateSize(s);
    PrintedParses(PObject(fs), LIMITS);
    StateKeys(s);
    StateOfObject(s);
  }

  lemma StateKeys(s: State)
    requires Printable(PObject(StateFields(s))) && FieldCount(StateFields(s)) == 7
    ensures |FieldMap(StateFields(s))| == 7
  {
    hide StateFields, FieldMap, PrintableFields;
    FieldMapKeys(StateFields(s), {});
  }

  /** A state that is written and cannot be read: a free text with a stray continuation byte. */
  lemma UnreadableSave()
    ensures var s := State("1", "", "", "", "", [0x80 as char]);
            Accepted(s) && Loaded(SerializeRuntimeState(s)) == None
  {
    hide Versions.Parsed, Loaded, SerializeRuntimeState;
    var s := State("1", "", "", "", "", [0x80 as char]);
    UpdateManifest.PlainOne();
    LoadOfSave(s);
  }

  // ---- which files are read ------------------------------------------------------------------

  /** An optional text: missing and null are the empty one. */
  predicate TextIs(root: map<string, Value>, key: string, text: string) {
    if key in root && !root[key].Null? then root[key] == Str(text) else text == ""
  }

  predicate IsVersion(text: string) { Versions.Parsed(text).Some? }

  predicate NoControls(s: string) { forall i | 0 <= i < |s| :: 0x20 <= Byte(s[i]) != 0x7F }

  /** An object of seven members holds the state. */
  predicate Holds(root: map<string, Value>, s: State) {
    && |root| == 7 && "schema" in root && JsonValues.Numeral(root["schema"], 1)
    && "current" in root && root["current"] == Str(s.current) && IsVersion(s.current)
    && TextIs(root, "previous_known_good", s.previousKnownGood)
    && (s.previousKnownGood == "" || IsVersion(s.previousKnownGood))
    && TextIs(root, "pending", s.pending) && (s.pending == "" || IsVersion(s.pending))
    && TextIs(root, "package_sha256", s.packageSha256) && (s.packageSha256 == "" || IsSha256(s.packageSha256))
    && TextIs(root, "manifest_key_id", s.manifestKeyId) && |s.manifestKeyId| <= 64 && NoControls(s.manifestKeyId)
    && TextIs(root, "last_result", s.lastResult) && |s.lastResult| <= 128 && NoControls(s.lastResult)
  }

  lemma FieldExactly(root: map<string, Value>, key: string, text: string)
    ensures FieldOf(root, key) == Some(text) <==> TextIs(root, key, text)
  {}

  lemma {:induction false} FieldsExactly(root: map<string, Value>, keys: seq<string>, texts: seq<string>)
    requires |texts| == |keys|
    ensures FieldsOf(root, keys) == Some(texts) <==> forall i | 0 <= i < |keys| :: TextIs(root, keys[i], texts[i])
  {
    hide TextIs, FieldOf;
    if keys != [] {
      var n := |keys| - 1;
      FieldsExactly(root, keys[..n], texts[..n]);
      FieldExactly(root, keys[n], texts[n]);
      assert texts == texts[..n] + [texts[n]];
      assert forall i | 0 <= i < n :: keys[..n][i] == keys[i] && texts[..n][i] == texts[i];
    }
  }

  lemma AllFields(root: map<string, Value>, texts: seq<string>)
    requires |texts| == 5
    ensures FieldsOf(root, KEYS) == Some(texts) <==>
            TextIs(root, "previous_known_good", texts[0]) && TextIs(root, "pending", texts[1])
            && TextIs(root, "package_sha256", texts[2]) && TextIs(root, "manifest_key_id", texts[3])
            && TextIs(root, "last_result", texts[4])
  {
    hide TextIs, FieldsOf;
    FieldsExactly(root, KEYS, texts);
    assert KEYS[0] == "previous_known_good" && KEYS[1] == "pending" && KEYS[2] == "package_sha256";
    assert KEYS[3] == "manifest_key_id" && KEYS[4] == "last_result";
  }

  lemma NoControlsExactly(s: string, limit: nat)
    ensures SafeText(s, limit) <==> |s| <= limit && NoControls(s)
  {
    assert forall i | 0 <= i < |s| :: s[i] >= ' ' && s[i] != 0x7F as char <==> 0x20 <= Byte(s[i]) != 0x7F;
  }

  lemma StateExactly(root: map<string, Value>, s: State)
    ensures (|root| == 7 && StateOf(root) == Some(s)) <==> Holds(root, s)
  {
    hide FieldsOf, KEYS, TextIs, NoControls, SafeText, Versions.Parsed, JsonValues.Numeral;
    KeysCount();
    AllFields(root, [s.previousKnownGood, s.pending, s.packageSha256, s.manifestKeyId, s.lastResult]);
    if FieldsOf(root, KEYS).Some? { AllFields(root, FieldsOf(root, KEYS).value); }
    NoControlsExactly(s.manifestKeyId, 64);
    NoControlsExactly(s.lastResult, 128);
    if "schema" in root { JsonValues.NumeralExactly(root["schema"], 1); }
  }

  /** A state is read exactly from the JSON texts of at most 64 KiB, 8 levels and 64 values that mean
      an object holding it. */
  lemma LoadedExactly(bytes: string, s: State)
    ensures Loaded(bytes) == Some(s) <==>
            exists root: map<string, Value> :: JsonExact.Derives(bytes, Options(65536, 8, 64), Obj(root)) && Holds(root, s)
  {
    hide Parse, JsonExact.Derives, Holds, StateOf;
    forall root: map<string, Value>
      ensures Parse(bytes, LIMITS) == Some(Obj(root)) <==> JsonExact.Derives(bytes, Options(65536, 8, 64), Obj(root))
      ensures (|root| == 7 && StateOf(root) == Some(s)) <==> Holds(root, s)
    {
      JsonExact.ParseExact(bytes, LIMITS, Obj(root));
      StateExactly(root, s);
    }
  }
}
