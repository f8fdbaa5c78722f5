/** The paths that a package may hold, component by component. */
module PackagePaths {
  import opened Texts
  import opened UpdatePackage

  /** The names of Windows devices. */
  const DEVICES: set<string> :=
    {"con", "prn", "aux", "nul", "com1", "com2", "com3", "com4", "com5", "com6", "com7", "com8", "com9",
     "lpt1", "lpt2", "lpt3", "lpt4", "lpt5", "lpt6", "lpt7", "lpt8", "lpt9"}

  /** No control character, and none of the nine that Windows reserves. */
  predicate PortableChar(c: char) {
    var n := c as nat;
    n >= 0x20 && n != 0x7F && n != 0x22 && n != 0x2A && n != 0x2F && n != 0x3A && n != 0x3C && n != 0x3E && n != 0x3F
    && n != 0x5C && n != 0x7C
  }

  /** A name that Windows keeps as it is: not ended by a blank or a dot, and no device up to its
      first dot. */
  predicate Portable(s: string) {
    && s != "" && s[|s| - 1] != ' ' && s[|s| - 1] != '.' && (forall i | 0 <= i < |s| :: PortableChar(s[i]))
    && Lower(s[..Find(s, '.', 0)]) !in DEVICES
  }

  /** Below `bin` or `lists`, or one of three files. */
  predicate InPlace(parts: seq<string>) {
    || (|parts| >= 2 && (parts[0] == "bin" || parts[0] == "lists"))
    || parts == ["strategies", "catalog.json"] || parts == ["provenance.json"] || parts == ["runtime-manifest.json"]
  }

  /** At most 240 characters: portable names in a place, with slashes between them. */
  ghost predicate Packaged(path: string) {
    |path| <= 240 && exists parts: seq<string> ::
      parts != [] && path == Join(parts, '/') && InPlace(parts) && forall i | 0 <= i < |parts| :: Portable(parts[i])
  }

  // ---- components --------------------------------------------------------------------------------

  lemma NumberedDevice(d: string, stem: string)
    requires |d| == 4 && |stem| == 3 && d[..3] == stem && '1' <= d[3] <= '9'
    ensures exists n: char :: '1' <= n <= '9' && d == stem + [n]
  {
    assert d == d[..3] + [d[3]];
  }

  lemma ComDevice(n: char)
    requires '1' <= n <= '9'
    ensures "com" + [n] in DEVICES && "lpt" + [n] in DEVICES
  {
    assert n == '1' || n == '2' || n == '3' || n == '4' || n == '5' || n == '6' || n == '7' || n == '8' || n == '9';
    assert "com" + ['1'] == "com1" && "com" + ['2'] == "com2" && "com" + ['3'] == "com3" && "com" + ['4'] == "com4";
    assert "com" + ['5'] == "com5" && "com" + ['6'] == "com6" && "com" + ['7'] == "com7" && "com" + ['8'] == "com8";
    assert "com" + ['9'] == "com9";
    assert "lpt" + ['1'] == "lpt1" && "lpt" + ['2'] == "lpt2" && "lpt" + ['3'] == "lpt3" && "lpt" + ['4'] == "lpt4";
    assert "lpt" + ['5'] == "lpt5" && "lpt" + ['6'] == "lpt6" && "lpt" + ['7'] == "lpt7" && "lpt" + ['8'] == "lpt8";
    assert "lpt" + ['9'] == "lpt9";
  }

  lemma DevicesAreReserved(d: string)
    requires d in DEVICES
    ensures IsReserved(d)
  {
    if d !in {"con", "prn", "aux", "nul"} {
      assert |d| == 4 && (d[..3] == "com" || d[..3] == "lpt") && '1' <= d[3] <= '9';
    }
  }

  lemma ReservedExactly(d: string)
    ensures IsReserved(d) <==> d in DEVICES
  {
    if d in DEVICES { DevicesAreReserved(d); }
    if IsReserved(d) && d !in {"con", "prn", "aux", "nul"} {
      NumberedDevice(d, d[..3]);
      var n: char :| '1' <= n <= '9' && d == d[..3] + [n];
      ComDevice(n);
    }
  }

  predicate NoSeparators(s: string) { '/' !in s && ':' !in s && '\\' !in s }

  lemma CharExactly(c: char)
    ensures PortableChar(c) <==> !IsForbidden(c) && c != '/' && c != ':' && c != '\\'
  {
    assert c in "*?\"<>|" <==> c == '*' || c == '?' || c == '"' || c == '<' || c == '>' || c == '|';
  }

  lemma ComponentExactly(s: string)
    ensures Portable(s) <==> SafeComponent(s) && NoSeparators(s)
  {
    hide IsReserved, DEVICES, Lower, IsForbidden, PortableChar;
    ReservedExactly(Lower(s[..Find(s, '.', 0)]));
    forall c: char ensures PortableChar(c) <==> !IsForbidden(c) && c != '/' && c != ':' && c != '\\' { CharExactly(c); }
    if forall i | 0 <= i < |s| :: PortableChar(s[i]) {
      assert NoSeparators(s);
    }
    if NoSeparators(s) { assert forall i | 0 <= i < |s| :: s[i] in s; }
  }

  // ---- places ------------------------------------------------------------------------------------

  lemma {:induction false} SplitParts(s: string, c: char)
    ensures forall i | 0 <= i < |Split(s, c)| :: c !in Split(s, c)[i] && forall d: char | d in Split(s, c)[i] :: d in s
    decreases |s|
  {
    var e := Find(s, c, 0);
    if e < |s| {
      SplitParts(s[e + 1..], c);
      var rest := Split(s[e + 1..], c);
      assert Split(s, c) == [s[..e]] + rest;
      forall i | 0 <= i < |rest| + 1
        ensures c !in ([s[..e]] + rest)[i] && forall d: char | d in ([s[..e]] + rest)[i] :: d in s
      {
        if i > 0 { assert ([s[..e]] + rest)[i] == rest[i - 1]; }
      }
    }
  }

  lemma {:induction false} JoinChars(parts: seq<string>, c: char, d: char)
    requires d in Join(parts, c) && d != c
    ensures exists i | 0 <= i < |parts| :: d in parts[i]
  {
    if |parts| > 1 && d !in parts[0] {
      JoinChars(parts[1..], c, d);
      var i :| 0 <= i < |parts[1..]| && d in parts[1..][i];
      assert d in parts[i + 1];
    }
  }

  lemma UnderDirectory(path: string, name: string)
    requires '/' !in name
    ensures name + "/" <= path <==> |Split(path, '/')| >= 2 && Split(path, '/')[0] == name
  {
    var e := Find(path, '/', 0);
    if name + "/" <= path {
      assert path[|name|] == '/' && forall i | 0 <= i < |name| :: path[i] == (name + "/")[i] == name[i];
      FindIs(path, '/', |name|);
      assert path[..|name|] == name;
    }
    if e < |path| && path[..e] == name {
      assert path[..e + 1] == name + "/";
    }
  }

  lemma OneFile(path: string, parts: seq<string>)
    requires parts != [] && forall i | 0 <= i < |parts| :: '/' !in parts[i]
    ensures path == Join(parts, '/') <==> Split(path, '/') == parts
  {
    SplitOfJoin(parts, '/');
    JoinOfSplit(path, '/');
  }

  lemma PlaceExactly(path: string)
    ensures Allowlisted(path) <==> InPlace(Split(path, '/'))
  {
    hide Split;
    UnderDirectory(path, "bin");
    UnderDirectory(path, "lists");
    OneFile(path, ["strategies", "catalog.json"]);
    OneFile(path, ["provenance.json"]);
    OneFile(path, ["runtime-manifest.json"]);
    FileNames();
    assert "bin" + "/" == "bin/" && "lists" + "/" == "lists/";
  }

  lemma FileNames()
    ensures Join(["strategies", "catalog.json"], '/') == "strategies/catalog.json"
    ensures Join(["provenance.json"], '/') == "provenance.json"
    ensures Join(["runtime-manifest.json"], '/') == "runtime-manifest.json" == MANIFEST
  {
    assert ["strategies", "catalog.json"][1..] == ["catalog.json"];
  }

  // ---- the theorem ---------------------------------------------------------------------------------

  lemma SafeIsPackaged(path: string)
    requires SafePath(path)
    ensures Packaged(path)
  {
    hide Split, InPlace, Allowlisted, SafeComponent, Portable;
    var parts := Split(path, '/');
    JoinOfSplit(path, '/');
    SplitParts(path, '/');
    PlaceExactly(path);
    forall i | 0 <= i < |parts| ensures Portable(parts[i]) { ComponentExactly(parts[i]); }
  }

  lemma PortableParts(parts: seq<string>)
    requires forall i | 0 <= i < |parts| :: Portable(parts[i])
    ensures forall i | 0 <= i < |parts| :: parts[i] != "" && SafeComponent(parts[i]) && NoSeparators(parts[i]) && NUL !in parts[i]
  {
    hide SafeComponent;
    forall i | 0 <= i < |parts|
      ensures parts[i] != "" && SafeComponent(parts[i]) && NoSeparators(parts[i]) && NUL !in parts[i]
    {
      ComponentExactly(parts[i]);
    }
  }

  lemma PackagedIsSafe(path: string, parts: seq<string>)
    requires |path| <= 240 && parts != [] && path == Join(parts, '/') && InPlace(parts)
    requires forall i | 0 <= i < |parts| :: Portable(parts[i])
    ensures SafePath(path)
  {
    hide Split, InPlace, Allowlisted, SafeComponent, Portable;
    PortableParts(parts);
    SplitOfJoin(parts, '/');
    PlaceExactly(path);
    if ':' in path { JoinChars(parts, '/', ':'); }
    if '\\' in path { JoinChars(parts, '/', '\\'); }
    if NUL in path { JoinChars(parts, '/', NUL); }
  }

  /** The accepted paths are exactly portable names in a place. */
  lemma PathExactly(path: string)
    ensures SafePath(path) <==> Packaged(path)
  {
    hide SafePath, InPlace, Portable;
    if SafePath(path) { SafeIsPackaged(path); }
    if Packaged(path) {
      var parts: seq<string> :|
        parts != [] && path == Join(parts, '/') && InPlace(parts) && forall i | 0 <= i < |parts| :: Portable(parts[i]);
      PackagedIsSafe(path, parts);
    }
  }
}
