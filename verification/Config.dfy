/** The user configuration: reading, printing, and the round trip between them. */
module Configuration {
  import opened Texts
  import opened Utf8
  import opened Json
  import opened JsonPrinter
  import JsonExact
  import JsonParser
  import JsonValues

  datatype GameFilterMode = Off | All | Tcp | Udp

  datatype UpdateMode = Notify | Download | Automatic | Disabled

  datatype UiSettings = UiSettings(
    animations: bool, reducedMotion: bool, glitch: bool, mascotIdle: bool, speed: string, unicodeMode: string)

  datatype UpdateSettings = UpdateSettings(
    channel: string, mode: UpdateMode, checkOnStart: bool, skippedPayloadVersion: string)

  datatype Config = Config(
    strategyId: string, gameFilter: GameFilterMode, update: UpdateSettings, ui: UiSettings)

  const DEFAULT_UI: UiSettings := UiSettings(true, false, true, true, "normal", "auto")
  const DEFAULT_UPDATE: UpdateSettings := UpdateSettings("stable", Notify, true, "")
  const LIMITS: Options := Options(1024 * 1024, 16, 512)
  const VERSION: string := "1.0.0-rc.4"

  function GameFilterModeName(mode: GameFilterMode): string {
    match mode case Off => "off" case All => "all" case Tcp => "tcp" case Udp => "udp"
  }

  function ParseGameFilter(name: string): Option<GameFilterMode> {
    if name == "off" then Some(Off) else if name == "all" then Some(All)
    else if name == "tcp" then Some(Tcp) else if name == "udp" then Some(Udp) else None
  }

  function UpdateModeName(mode: UpdateMode): string {
    match mode
    case Notify => "notify" case Download => "download" case Automatic => "automatic" case Disabled => "disabled"
  }

  function ParseUpdateMode(name: string): Option<UpdateMode> {
    if name == "notify" then Some(Notify) else if name == "download" then Some(Download)
    else if name == "automatic" then Some(Automatic) else if name == "disabled" then Some(Disabled) else None
  }

  predicate IsValidStrategyIdSyntax(id: string) {
    && 0 < |id| <= 64
    && forall i | 0 <= i < |id| ::
         'a' <= id[i] <= 'z' || 'A' <= id[i] <= 'Z' || IsDigit(id[i]) || id[i] == '_' || id[i] == '-'
  }

  predicate IsSpeed(s: string) { s == "slow" || s == "normal" || s == "fast" }

  predicate IsUnicodeMode(s: string) { s == "auto" || s == "unicode" || s == "ascii" }

  // ---- what a parsed object means -----------------------------------------------------------

  function BoolOr(m: map<string, Value>, key: string, standard: bool): bool {
    if key in m && m[key].Bool? then m[key].b else standard
  }

  function TextIf(m: map<string, Value>, key: string): Option<string> {
    if key in m && m[key].Str? then Some(m[key].s) else None
  }

  function TextOr(t: Option<string>, ok: bool, standard: string): string {
    if t.Some? && ok then t.value else standard
  }

  function GameFilterOf(root: map<string, Value>): Option<GameFilterMode> {
    if "gameFilter" !in root then Some(Off) else
    match root["gameFilter"]
    case Str(name) => ParseGameFilter(name)
    case Bool(legacy) => Some(if legacy then All else Off)
    case _ => None
  }

  function UiFrom(m: map<string, Value>): UiSettings {
    var speed, mode := TextIf(m, "animation_speed"), TextIf(m, "unicode_mode");
    UiSettings(
      BoolOr(m, "animations", true), BoolOr(m, "reduced_motion", false),
      BoolOr(m, "glitch_effects", true), BoolOr(m, "mascot_idle", true),
      TextOr(speed, speed.Some? && IsSpeed(speed.value), "normal"),
      TextOr(mode, mode.Some? && IsUnicodeMode(mode.value), "auto"))
  }

  function UiOf(root: map<string, Value>): Option<UiSettings> {
    if "ui" !in root then Some(DEFAULT_UI)
    else if root["ui"].Obj? then Some(UiFrom(root["ui"].members)) else None
  }

  function UpdateModeFrom(m: map<string, Value>): UpdateMode {
    match TextIf(m, "mode")
    case None => Notify
    case Some(name) => (match ParseUpdateMode(name) case None => Notify case Some(mode) => mode)
  }

  function UpdateFrom(m: map<string, Value>): UpdateSettings {
    UpdateSettings("stable", UpdateModeFrom(m), BoolOr(m, "check_on_start", true),
                   TextOr(TextIf(m, "skipped_payload_version"), true, ""))
  }

  function UpdateOf(root: map<string, Value>): Option<UpdateSettings> {
    if "update" !in root then Some(DEFAULT_UPDATE)
    else if root["update"].Obj? then Some(UpdateFrom(root["update"].members)) else None
  }

  function ConfigOf(root: map<string, Value>): Option<Config> {
    var strategy := TextIf(root, "strategy");
    if strategy.None? || !IsValidStrategyIdSyntax(strategy.value) then None
    else if GameFilterOf(root).None? || UiOf(root).None? || UpdateOf(root).None? then None
    else Some(Config(strategy.value, GameFilterOf(root).value, UpdateOf(root).value, UiOf(root).value))
  }

  function Read(input: string): Option<Config> {
    match Parse(input, LIMITS)
    case Some(Obj(root)) => ConfigOf(root)
    case _ => None
  }

  // ---- ParseConfig, field by field ------------------------------------------------------------

  method ReadSwitches(m: map<string, Value>) returns (ui: UiSettings)
    ensures ui == UiSettings(BoolOr(m, "animations", true), BoolOr(m, "reduced_motion", false),
                             BoolOr(m, "glitch_effects", true), BoolOr(m, "mascot_idle", true), "normal", "auto")
  {
    ui := DEFAULT_UI;
    if "animations" in m && m["animations"].Bool? { ui := ui.(animations := m["animations"].b); }
    if "reduced_motion" in m && m["reduced_motion"].Bool? { ui := ui.(reducedMotion := m["reduced_motion"].b); }
    if "glitch_effects" in m && m["glitch_effects"].Bool? { ui := ui.(glitch := m["glitch_effects"].b); }
    if "mascot_idle" in m && m["mascot_idle"].Bool? { ui := ui.(mascotIdle := m["mascot_idle"].b); }
  }

  method ReadUi(m: map<string, Value>) returns (ui: UiSettings)
    ensures ui == UiFrom(m)
  {
    ui := ReadSwitches(m);
    hide BoolOr, IsSpeed, IsUnicodeMode;
    if "animation_speed" in m && m["animation_speed"].Str? && IsSpeed(m["animation_speed"].s) {
      ui := ui.(speed := m["animation_speed"].s);
    }
    if "unicode_mode" in m && m["unicode_mode"].Str? && IsUnicodeMode(m["unicode_mode"].s) {
      ui := ui.(unicodeMode := m["unicode_mode"].s);
    }
  }

  method ReadUpdate(m: map<string, Value>) returns (update: UpdateSettings)
    ensures update == UpdateFrom(m)
  {
    update := DEFAULT_UPDATE;
    if "channel" in m && m["channel"].Str? && m["channel"].s == "stable" {
      update := update.(channel := m["channel"].s);
    }
    if "mode" in m && m["mode"].Str? {
      var mode := ParseUpdateMode(m["mode"].s);
      if mode.Some? { update := update.(mode := mode.value); }
    }
    if "check_on_start" in m && m["check_on_start"].Bool? {
      update := update.(checkOnStart := m["check_on_start"].b);
    }
    if "skipped_payload_version" in m {
      var skipped := m["skipped_payload_version"];
      if skipped.Str? {
        update := update.(skippedPayloadVersion := skipped.s);
      } else if !skipped.Null? {
        update := update.(skippedPayloadVersion := "");
      }
    }
  }

  method ParseConfig(input: string) returns (r: Option<Config>)
    ensures r == Read(input)
  {
    hide Parse, IsValidStrategyIdSyntax, UiFrom, UpdateFrom;
    var parser := new JsonParser.Parser(input, LIMITS);
    var parsed := parser.Run();
    if parsed.None? || !parsed.value.Obj? { return None; }
    var root := parsed.value.members;
    if !("strategy" in root && root["strategy"].Str?) { return None; }
    var config := Config("general", Off, DEFAULT_UPDATE, DEFAULT_UI);
    if !IsValidStrategyIdSyntax(root["strategy"].s) { return None; }
    config := config.(strategyId := root["strategy"].s);
    if "gameFilter" in root {
      var game := root["gameFilter"];
      if game.Str? {
        var mode := ParseGameFilter(game.s);
        if mode.None? { return None; }
        config := config.(gameFilter := mode.value);
      } else if game.Bool? {
        config := config.(gameFilter := if game.b then All else Off);
      } else {
        return None;
      }
    }
    if "ui" in root {
      if !root["ui"].Obj? { return None; }
      var ui := ReadUi(root["ui"].members);
      config := config.(ui := ui);
    }
    if "update" in root {
      if !root["update"].Obj? { return None; }
      var update := ReadUpdate(root["update"].members);
      config := config.(update := update);
    }
    return Some(config);
  }

  // ---- SerializeConfig --------------------------------------------------------------------------

  function Skipped(u: UpdateSettings): Printed {
    if u.skippedPayloadVersion == "" then PNull else PText(u.skippedPayloadVersion)
  }

  function UpdateFields(u: UpdateSettings): Fields {
    More("channel", PText("stable"),
    More("mode", PText(UpdateModeName(u.mode)),
    More("check_on_start", PBool(u.checkOnStart),
    Last("skipped_payload_version", Skipped(u)))))
  }

  function UiFields(ui: UiSettings): Fields {
    More("animations", PBool(ui.animations),
    More("animation_speed", PText(ui.speed),
    More("reduced_motion", PBool(ui.reducedMotion),
    More("glitch_effects", PBool(ui.glitch),
    More("mascot_idle", PBool(ui.mascotIdle),
    Last("unicode_mode", PText(ui.unicodeMode)))))))
  }

  function ConfigFields(c: Config): Fields {
    More("version", PText(VERSION),
    More("strategy", PText(c.strategyId),
    More("gameFilter", PText(GameFilterModeName(c.gameFilter)),
    More("update", PObject(UpdateFields(c.update)),
    Last("ui", PObject(UiFields(c.ui)))))))
  }

  function SerializeConfig(c: Config): string { Print(PObject(ConfigFields(c)), 0) + "\n" }

  // ---- the round trip -----------------------------------------------------------------------------

  /** What a configuration must satisfy to survive being printed and read. */
  predicate Valid(c: Config) {
    && IsValidStrategyIdSyntax(c.strategyId)
    && c.update.channel == "stable" && WellFormed(c.update.skippedPayloadVersion)
    && IsSpeed(c.ui.speed) && IsUnicodeMode(c.ui.unicodeMode)
  }

  function UiMap(ui: UiSettings): map<string, Value> {
    map["unicode_mode" := Str(ui.unicodeMode)]
       ["mascot_idle" := Bool(ui.mascotIdle)]
       ["glitch_effects" := Bool(ui.glitch)]
       ["reduced_motion" := Bool(ui.reducedMotion)]
       ["animation_speed" := Str(ui.speed)]
       ["animations" := Bool(ui.animations)]
  }

  lemma UiMapExact(ui: UiSettings)
    ensures FieldMap(UiFields(ui)) == UiMap(ui)
    ensures FieldLevels(UiFields(ui)) == 0 && FieldsSize(UiFields(ui)) == 6
  {
    hide FieldMap, FieldLevels, FieldsSize;
    var f5 := Last("unicode_mode", PText(ui.unicodeMode));
    var f4 := More("mascot_idle", PBool(ui.mascotIdle), f5);
    var f3 := More("glitch_effects", PBool(ui.glitch), f4);
    var f2 := More("reduced_motion", PBool(ui.reducedMotion), f3);
    var f1 := More("animation_speed", PText(ui.speed), f2);
    FlatLast("unicode_mode", PText(ui.unicodeMode));
    FlatMore("mascot_idle", PBool(ui.mascotIdle), f5);
    FlatMore("glitch_effects", PBool(ui.glitch), f4);
    FlatMore("reduced_motion", PBool(ui.reducedMotion), f3);
    FlatMore("animation_speed", PText(ui.speed), f2);
    FlatMore("animations", PBool(ui.animations), f1);
  }

  lemma UiReadsBack(ui: UiSettings)
    requires IsSpeed(ui.speed) && IsUnicodeMode(ui.unicodeMode)
    ensures UiFrom(UiMap(ui)) == ui
  {
    hide IsSpeed, IsUnicodeMode;
  }

  function UpdateMap(u: UpdateSettings): map<string, Value> {
    map["skipped_payload_version" := ValueOf(Skipped(u))]
       ["check_on_start" := Bool(u.checkOnStart)]
       ["mode" := Str(UpdateModeName(u.mode))]
       ["channel" := Str("stable")]
  }

  lemma UpdateMapExact(u: UpdateSettings)
    ensures FieldMap(UpdateFields(u)) == UpdateMap(u)
    ensures FieldLevels(UpdateFields(u)) == 0 && FieldsSize(UpdateFields(u)) == 4
  {
    var f3 := Last("skipped_payload_version", Skipped(u));
    var f2 := More("check_on_start", PBool(u.checkOnStart), f3);
    var f1 := More("mode", PText(UpdateModeName(u.mode)), f2);
    var m: map<string, Value> := map["skipped_payload_version" := ValueOf(Skipped(u))];
    assert m == FieldMap(f3) && FieldLevels(f3) == 0 && FieldsSize(f3) == 1;
    m := m["check_on_start" := Bool(u.checkOnStart)];
    assert m == FieldMap(f2) && FieldLevels(f2) == 0 && FieldsSize(f2) == 2;
    m := m["mode" := Str(UpdateModeName(u.mode))];
    assert m == FieldMap(f1) && FieldLevels(f1) == 0 && FieldsSize(f1) == 3;
  }

  lemma UpdateModeReadsBack(mode: UpdateMode)
    ensures ParseUpdateMode(UpdateModeName(mode)) == Some(mode)
  {}

  lemma UpdateReadsBack(u: UpdateSettings)
    requires u.channel == "stable"
    ensures UpdateFrom(UpdateMap(u)) == u
  {
    hide UpdateModeName, ParseUpdateMode;
    UpdateModeReadsBack(u.mode);
  }

  function ConfigMap(c: Config): map<string, Value> {
    map["ui" := Obj(UiMap(c.ui))]
       ["update" := Obj(UpdateMap(c.update))]
       ["gameFilter" := Str(GameFilterModeName(c.gameFilter))]
       ["strategy" := Str(c.strategyId)]
       ["version" := Str(VERSION)]
  }

  lemma ConfigMapExact(c: Config)
    ensures FieldMap(ConfigFields(c)) == ConfigMap(c)
    ensures Levels(PObject(ConfigFields(c))) == 2 && Size(PObject(ConfigFields(c))) == 16
  {
    hide UiFields, UpdateFields, UiMap, UpdateMap, VERSION;
    UiMapExact(c.ui);
    UpdateMapExact(c.update);
    var ui, update := PObject(UiFields(c.ui)), PObject(UpdateFields(c.update));
    assert Levels(ui) == 1 && Size(ui) == 7 && ValueOf(ui) == Obj(UiMap(c.ui));
    assert Levels(update) == 1 && Size(update) == 5 && ValueOf(update) == Obj(UpdateMap(c.update));
    var f4 := Last("ui", PObject(UiFields(c.ui)));
    var f3 := More("update", PObject(UpdateFields(c.update)), f4);
    var f2 := More("gameFilter", PText(GameFilterModeName(c.gameFilter)), f3);
    var f1 := More("strategy", PText(c.strategyId), f2);
    var m: map<string, Value> := map["ui" := Obj(UiMap(c.ui))];
    assert m == FieldMap(f4) && FieldLevels(f4) == 1 && FieldsSize(f4) == 7;
    m := m["update" := Obj(UpdateMap(c.update))];
    assert m == FieldMap(f3) && FieldLevels(f3) == 1 && FieldsSize(f3) == 12;
    m := m["gameFilter" := Str(GameFilterModeName(c.gameFilter))];
    assert m == FieldMap(f2) && FieldLevels(f2) == 1 && FieldsSize(f2) == 13;
    m := m["strategy" := Str(c.strategyId)];
    assert m == FieldMap(f1) && FieldLevels(f1) == 1 && FieldsSize(f1) == 14;
    assert FieldLevels(ConfigFields(c)) == 1 && FieldsSize(ConfigFields(c)) == 15;
  }

  lemma GameFilterReadsBack(mode: GameFilterMode)
    ensures ParseGameFilter(GameFilterModeName(mode)) == Some(mode)
  {}

  lemma ConfigReadsBack(c: Config)
    requires Valid(c)
    ensures ConfigOf(ConfigMap(c)) == Some(c)
  {
    hide UiFrom, UpdateFrom, UiMap, UpdateMap, GameFilterModeName, ParseGameFilter, VERSION, WellFormed;
    GameFilterReadsBack(c.gameFilter);
    UiReadsBack(c.ui);
    UpdateReadsBack(c.update);
  }

  // ---- what is printed is printable -----------------------------------------------------------------

  lemma UiPrintable(ui: UiSettings)
    requires IsSpeed(ui.speed) && IsUnicodeMode(ui.unicodeMode)
    ensures PrintableFields(UiFields(ui), {})
  {
    hide WellFormed;
    AsciiWellFormed(ui.speed);
    AsciiWellFormed(ui.unicodeMode);
    hide IsSpeed, IsUnicodeMode;
    UiKeys();
    var s1: set<string> := {} + {"animations"};
    var s2 := s1 + {"animation_speed"};
    var s3 := s2 + {"reduced_motion"};
    var s4 := s3 + {"glitch_effects"};
    var s5 := s4 + {"mascot_idle"};
    var f5 := Last("unicode_mode", PText(ui.unicodeMode));
    var f4 := More("mascot_idle", PBool(ui.mascotIdle), f5);
    var f3 := More("glitch_effects", PBool(ui.glitch), f4);
    var f2 := More("reduced_motion", PBool(ui.reducedMotion), f3);
    var f1 := More("animation_speed", PText(ui.speed), f2);
    assert PrintableFields(f5, s5);
    assert PrintableFields(f4, s4);
    assert PrintableFields(f3, s3);
    assert PrintableFields(f2, s2);
    assert PrintableFields(f1, s1);
  }

  lemma UiKeys()
    ensures WellFormed("animations") && WellFormed("animation_speed") && WellFormed("reduced_motion")
    ensures WellFormed("glitch_effects") && WellFormed("mascot_idle") && WellFormed("unicode_mode")
  {
    hide WellFormed;
    AsciiWellFormed("animations");
    AsciiWellFormed("animation_speed");
    AsciiWellFormed("reduced_motion");
    AsciiWellFormed("glitch_effects");
    AsciiWellFormed("mascot_idle");
    AsciiWellFormed("unicode_mode");
  }

  lemma UpdatePrintable(u: UpdateSettings)
    requires WellFormed(u.skippedPayloadVersion)
    ensures PrintableFields(UpdateFields(u), {})
  {
    hide WellFormed;
    UpdateKeys(u.mode);
    hide UpdateModeName;
    var s1: set<string> := {} + {"channel"};
    var s2 := s1 + {"mode"};
    var s3 := s2 + {"check_on_start"};
    var f3 := Last("skipped_payload_version", Skipped(u));
    var f2 := More("check_on_start", PBool(u.checkOnStart), f3);
    var f1 := More("mode", PText(UpdateModeName(u.mode)), f2);
    assert PrintableFields(f3, s3);
    assert PrintableFields(f2, s2);
    assert PrintableFields(f1, s1);
  }

  lemma UpdateKeys(mode: UpdateMode)
    ensures WellFormed("channel") && WellFormed("mode") && WellFormed("check_on_start")
    ensures WellFormed("skipped_payload_version") && WellFormed("stable") && WellFormed(UpdateModeName(mode))
  {
    hide WellFormed;
    AsciiWellFormed("channel");
    AsciiWellFormed("mode");
    AsciiWellFormed("check_on_start");
    AsciiWellFormed("skipped_payload_version");
    AsciiWellFormed("stable");
    AsciiWellFormed(UpdateModeName(mode));
  }

  lemma ConfigPrintable(c: Config)
    requires Valid(c)
    ensures Printable(PObject(ConfigFields(c)))
  {
    hide WellFormed, UiFields, UpdateFields;
    ConfigKeys(c.gameFilter);
    AsciiWellFormed(c.strategyId);
    UiPrintable(c.ui);
    UpdatePrintable(c.update);
    hide GameFilterModeName, IsValidStrategyIdSyntax, VERSION;
    assert Printable(PObject(UiFields(c.ui))) && Printable(PObject(UpdateFields(c.update)));
    var s1: set<string> := {} + {"version"};
    var s2 := s1 + {"strategy"};
    var s3 := s2 + {"gameFilter"};
    var s4 := s3 + {"update"};
    var f4 := Last("ui", PObject(UiFields(c.ui)));
    var f3 := More("update", PObject(UpdateFields(c.update)), f4);
    var f2 := More("gameFilter", PText(GameFilterModeName(c.gameFilter)), f3);
    var f1 := More("strategy", PText(c.strategyId), f2);
    assert PrintableFields(f4, s4);
    assert PrintableFields(f3, s3);
    assert PrintableFields(f2, s2);
    assert PrintableFields(f1, s1);
    assert PrintableFields(ConfigFields(c), {});
  }

  lemma ConfigKeys(mode: GameFilterMode)
    ensures WellFormed("version") && WellFormed("strategy") && WellFormed("gameFilter") && WellFormed("update")
    ensures WellFormed("ui") && WellFormed(VERSION) && WellFormed(GameFilterModeName(mode))
  {
    hide WellFormed;
    AsciiWellFormed("version");
    AsciiWellFormed("strategy");
    AsciiWellFormed("gameFilter");
    AsciiWellFormed("update");
    AsciiWellFormed("ui");
    AsciiWellFormed(VERSION);
    AsciiWellFormed(GameFilterModeName(mode));
  }

  // ---- the main result --------------------------------------------------------------------------------

  /** Whatever the file held, a configuration that is read is valid. */
  lemma ReadIsValid(input: string)
    requires Read(input).Some?
    ensures Valid(Read(input).value)
  {
    hide Parse, IsValidStrategyIdSyntax, WellFormed;
    JsonValues.ParsedIsUtf8(input, LIMITS);
    EmptyWellFormed();
    var root := Parse(input, LIMITS).value.members;
    assert JsonValues.AllUtf8(Obj(root));
    if "update" in root { assert JsonValues.AllUtf8(root["update"]); }
  }

  /** Reading a printed configuration gives it back exactly when it is valid and its text is
      within the size limit. */
  lemma ReadOfSerialize(c: Config)
    ensures Read(SerializeConfig(c)) == Some(c) <==> Valid(c) && |SerializeConfig(c)| <= LIMITS.maxBytes
  {
    hide Parse, Valid, Print, ConfigOf, ConfigFields, ConfigMap, Printable;
    if Read(SerializeConfig(c)) == Some(c) {
      ReadIsValid(SerializeConfig(c));
      WithinBytes(SerializeConfig(c));
    }
    if Valid(c) && |SerializeConfig(c)| <= LIMITS.maxBytes {
      ConfigPrintable(c);
      ConfigMapExact(c);
      PrintedParses(PObject(ConfigFields(c)), LIMITS);
      ConfigReadsBack(c);
    }
  }

  lemma WithinBytes(input: string)
    requires Parse(input, LIMITS).Some?
    ensures |input| <= LIMITS.maxBytes
  {}

  // ---- which texts are configurations ------------------------------------------------------------

  /** A switch: taken if it is a boolean, and otherwise the standard. */
  predicate SwitchIs(m: map<string, Value>, key: string, standard: bool, b: bool) {
    if key in m && m[key].Bool? then m[key] == Bool(b) else b == standard
  }

  /** One of several words: taken if it is a text among them, and otherwise the standard. */
  predicate WordIs(m: map<string, Value>, key: string, words: set<string>, standard: string, word: string) {
    if key in m && m[key].Str? && m[key].s in words then m[key] == Str(word) else word == standard
  }

  predicate UiMeans(v: Value, ui: UiSettings) {
    && v.Obj?
    && SwitchIs(v.members, "animations", true, ui.animations) && SwitchIs(v.members, "reduced_motion", false, ui.reducedMotion)
    && SwitchIs(v.members, "glitch_effects", true, ui.glitch) && SwitchIs(v.members, "mascot_idle", true, ui.mascotIdle)
    && WordIs(v.members, "animation_speed", {"slow", "normal", "fast"}, "normal", ui.speed)
    && WordIs(v.members, "unicode_mode", {"auto", "unicode", "ascii"}, "auto", ui.unicodeMode)
  }

  /** The update mode is one of four words, and notify when it is none of them. */
  predicate ModeIs(m: map<string, Value>, mode: UpdateMode) {
    var words := {"notify", "download", "automatic", "disabled"};
    match mode
    case Notify => WordIs(m, "mode", words, "notify", "notify")
    case Download => WordIs(m, "mode", words, "notify", "download")
    case Automatic => WordIs(m, "mode", words, "notify", "automatic")
    case Disabled => WordIs(m, "mode", words, "notify", "disabled")
  }

  predicate UpdateMeans(v: Value, u: UpdateSettings) {
    && v.Obj? && u.channel == "stable" && SwitchIs(v.members, "check_on_start", true, u.checkOnStart)
    && ModeIs(v.members, u.mode)
    && (if "skipped_payload_version" in v.members && v.members["skipped_payload_version"].Str?
        then v.members["skipped_payload_version"] == Str(u.skippedPayloadVersion)
        else u.skippedPayloadVersion == "")
  }

  /** The game filter is one of four words, or the boolean of older configurations, or off when it is
      missing. */
  predicate GameFilterMeans(root: map<string, Value>, mode: GameFilterMode) {
    if "gameFilter" !in root then mode == Off else
    match root["gameFilter"]
    case Bool(b) => mode == if b then All else Off
    case Str(word) =>
      (match mode case Off => word == "off" case All => word == "all" case Tcp => word == "tcp" case Udp => word == "udp")
    case _ => false
  }

  /** What an object says as a configuration; what is missing has its standard. */
  predicate ConfigMeans(root: map<string, Value>, c: Config) {
    && "strategy" in root && root["strategy"] == Str(c.strategyId) && IsValidStrategyIdSyntax(c.strategyId)
    && GameFilterMeans(root, c.gameFilter)
    && (if "ui" in root then UiMeans(root["ui"], c.ui)
        else c.ui == UiSettings(true, false, true, true, "normal", "auto"))
    && (if "update" in root then UpdateMeans(root["update"], c.update)
        else c.update == UpdateSettings("stable", Notify, true, ""))
  }

  lemma GameFilterExactly(root: map<string, Value>, mode: GameFilterMode)
    ensures GameFilterOf(root) == Some(mode) <==> GameFilterMeans(root, mode)
  {
    WordsDiffer();
  }

  lemma WordsDiffer()
    ensures "off" != "all" && "off" != "tcp" && "off" != "udp" && "all" != "tcp" && "all" != "udp" && "tcp" != "udp"
    ensures "notify" != "download" && "notify" != "automatic" && "notify" != "disabled"
    ensures "download" != "automatic" && "download" != "disabled" && "automatic" != "disabled"
  {
    assert "off"[0] == 'o' && "all"[0] == 'a' && "tcp"[0] == 't' && "udp"[0] == 'u';
    assert "notify"[0] == 'n' && "download"[1] == 'o' && "automatic"[0] == 'a' && "disabled"[1] == 'i';
  }

  lemma UiExactly(v: Value, ui: UiSettings)
    ensures (v.Obj? && UiFrom(v.members) == ui) <==> UiMeans(v, ui)
  {}

  lemma ModeExactly(m: map<string, Value>, mode: UpdateMode)
    ensures UpdateModeFrom(m) == mode <==> ModeIs(m, mode)
  {
    WordsDiffer();
  }

  lemma UpdateExactly(v: Value, u: UpdateSettings)
    ensures (v.Obj? && UpdateFrom(v.members) == u) <==> UpdateMeans(v, u)
  {
    hide ModeIs, UpdateModeFrom;
    if v.Obj? { ModeExactly(v.members, u.mode); }
  }

  lemma ConfigExactly(root: map<string, Value>, c: Config)
    ensures ConfigOf(root) == Some(c) <==> ConfigMeans(root, c)
  {
    hide GameFilterOf, GameFilterMeans, UiFrom, UiMeans, UpdateFrom, UpdateMeans, IsValidStrategyIdSyntax;
    GameFilterExactly(root, c.gameFilter);
    if "ui" in root { UiExactly(root["ui"], c.ui); }
    if "update" in root { UpdateExactly(root["update"], c.update); }
  }

  /** A configuration is read exactly from the JSON texts of at most 1 MiB, 16 levels and 512 values
      that mean an object which says it. */
  lemma ReadExactly(input: string, c: Config)
    ensures Read(input) == Some(c) <==>
            exists root: map<string, Value> ::
              JsonExact.Derives(input, Options(1048576, 16, 512), Obj(root)) && ConfigMeans(root, c)
  {
    hide Parse, JsonExact.Derives, ConfigOf, ConfigMeans;
    forall root: map<string, Value>
      ensures Parse(input, LIMITS) == Some(Obj(root)) <==> JsonExact.Derives(input, Options(1048576, 16, 512), Obj(root))
      ensures ConfigOf(root) == Some(c) <==> ConfigMeans(root, c)
    {
      JsonExact.ParseExact(input, LIMITS, Obj(root));
      ConfigExactly(root, c);
    }
  }
}
