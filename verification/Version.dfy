/** Version texts: the parser, the grammar it must accept, and what the parser loses. */
module Versions {
  import opened Texts

  const MAX_CORE_PARTS: nat := 8
  const MAX_TEXT: nat := 64
  const MAX_IDENTIFIER: nat := 48

  datatype Version = Version(
    parts: seq<nat>,
    suffix: string,
    prerelease: bool,
    revision: string,
    prereleaseIds: seq<string>)

  predicate IsIdentifierChar(c: char) {
    IsDigit(c) || 'a' <= c <= 'z' || 'A' <= c <= 'Z' || c == '-'
  }

  predicate ValidIdentifier(s: string) {
    0 < |s| <= MAX_IDENTIFIER && forall i | 0 <= i < |s| :: IsIdentifierChar(s[i])
  }

  predicate ValidIdentifiers(ids: seq<string>) {
    |ids| > 0 && forall i | 0 <= i < |ids| :: ValidIdentifier(ids[i])
  }

  // ---- what the parser computes ---------------------------------------------

  function StripV(text: string): string {
    if text != "" && (text[0] == 'v' || text[0] == 'V') then text[1..] else text
  }

  function DigitCount(s: string): (e: nat)
    ensures e <= |s| && AllDigits(s[..e])
    ensures e < |s| ==> !IsDigit(s[e])
  {
    if s != "" && IsDigit(s[0]) then
      assert s[..1 + DigitCount(s[1..])] == [s[0]] + s[1..][..DigitCount(s[1..])];
      1 + DigitCount(s[1..])
    else 0
  }

  /** One core number at the front of `s`: its value and the text after it. */
  function Number(s: string): (r: Option<(nat, string)>)
    ensures r.Some? ==> |r.value.1| < |s|
  {
    var e := DigitCount(s);
    if Canonical(s[..e]) && Value(s[..e]) < TWO64 then Some((Value(s[..e]), s[e..])) else None
  }

  /** The core numbers at the front of `s` and the text after them, with `k` numbers read before. */
  function Core(s: string, k: nat): (r: Option<(seq<nat>, string)>)
    decreases |s|
  {
    if Number(s).None? || k + 1 > MAX_CORE_PARTS then None else
    var (n, rest) := Number(s).value;
    if rest != "" && rest[0] == '.' then Prepend(n, Core(rest[1..], k + 1)) else Some(([n], rest))
  }

  function Prepend(n: nat, r: Option<(seq<nat>, string)>): Option<(seq<nat>, string)> {
    if r.None? then None else Some(([n] + r.value.0, r.value.1))
  }

  function Identifiers(s: string): Option<seq<string>> {
    if s != "" && ValidIdentifiers(Split(s, '.')) then Some(Split(s, '.')) else None
  }

  function RevisionOf(s: string): (r: string)
    ensures r <= s
  {
    if s != "" && 'a' <= s[0] <= 'z' then s[..1] else ""
  }

  /** Prerelease and build identifiers: `mid` is the text before the first plus sign, and
      `tail` the text from it on. */
  function Marks(mid: string, tail: string): Option<(Option<seq<string>>, Option<seq<string>>)> {
    var pre := if mid != "" && mid[0] == '-' then Identifiers(mid[1..]) else None;
    var build := if tail != "" then Identifiers(tail[1..]) else None;
    if (tail != "" && build.None?) || (mid != "" && pre.None?) then None else Some((pre, build))
  }

  /** Everything after the core: revision, prerelease identifiers and build identifiers. */
  function Suffix(s: string): Option<(string, Option<seq<string>>, Option<seq<string>>)> {
    var revision := RevisionOf(s);
    var rest := s[|revision|..];
    var plus := Find(rest, '+', 0);
    match Marks(rest[..plus], rest[plus..])
    case None => None
    case Some(m) => Some((revision, m.0, m.1))
  }

  function Parsed(text: string): Option<Version> {
    var s := StripV(text);
    if s == "" || |s| > MAX_TEXT || Core(s, 0).None? then None
    else Assembled(Core(s, 0).value.0, Core(s, 0).value.1)
  }

  function Assembled(parts: seq<nat>, suffix: string): Option<Version> {
    match Suffix(suffix)
    case None => None
    case Some(x) => Some(Version(parts, suffix, x.1.Some?, x.0, if x.1.Some? then x.1.value else []))
  }

  // ---- the parser, as it runs -----------------------------------------------

  function AfterParts(parts: seq<nat>, rest: Option<(seq<nat>, string)>): Option<(seq<nat>, string)> {
    if rest.None? then None else Some((parts + rest.value.0, rest.value.1))
  }

  lemma AfterPartsStep(parts: seq<nat>, n: nat, rest: Option<(seq<nat>, string)>)
    ensures AfterParts(parts, Prepend(n, rest)) == AfterParts(parts + [n], rest)
  {
    if rest.Some? { assert parts + ([n] + rest.value.0) == parts + [n] + rest.value.0; }
  }

  method ScanDigits(s: string, start: nat) returns (pos: nat)
    requires start <= |s|
    ensures pos == start + DigitCount(s[start..])
  {
    pos := start;
    while pos < |s| && IsDigit(s[pos])
      invariant start <= pos <= |s|
      invariant start + DigitCount(s[start..]) == pos + DigitCount(s[pos..])
    {
      assert s[pos..][1..] == s[pos + 1..];
      pos := pos + 1;
    }
  }

  lemma CoreStep(parts: seq<nat>, s: string)
    requires Number(s).Some? && |parts| + 1 <= MAX_CORE_PARTS
    ensures var (n, rest) := Number(s).value;
            AfterParts(parts, Core(s, |parts|)) ==
            if rest != "" && rest[0] == '.' then AfterParts(parts + [n], Core(rest[1..], |parts| + 1))
            else Some((parts + [n], rest))
  {
    var (n, rest) := Number(s).value;
    if rest != "" && rest[0] == '.' { AfterPartsStep(parts, n, Core(rest[1..], |parts| + 1)); }
  }

  lemma NumberAt(s: string, start: nat, pos: nat)
    requires start <= pos <= |s| && pos == start + DigitCount(s[start..])
    ensures AllDigits(s[start..pos])
    ensures Number(s[start..]) ==
            if Canonical(s[start..pos]) && Value(s[start..pos]) < TWO64
            then Some((Value(s[start..pos]), s[pos..])) else None
  {
    var t := s[start..];
    assert t[..pos - start] == s[start..pos] && t[pos - start..] == s[pos..];
  }

  /** What the core loop still has to find when it has read `parts` and stands at `pos`. */
  function CoreFrom(s: string, pos: nat, parts: seq<nat>): Option<(seq<nat>, string)>
    requires pos <= |s|
  {
    AfterParts(parts, Core(s[pos..], |parts|))
  }

  /** The first number of `s[start..]` and its end. */
  method ReadPart(s: string, start: nat) returns (pos: nat, part: Option<nat>)
    requires start <= |s|
    ensures start <= pos <= |s|
    ensures part.Some? ==> start < pos
    ensures Number(s[start..]) == if part.Some? then Some((part.value, s[pos..])) else None
  {
    pos := ScanDigits(s, start);
    NumberAt(s, start, pos);
    if start == pos { return pos, None; }
    if pos - start > 1 && s[start] == '0' { return pos, None; }
    var value := Value(s[start..pos]);
    part := if value >= TWO64 then None else Some(value);
  }

  /** One step of the core loop: the number `part` ends at `pos`, when `parts` were read before. */
  lemma CoreStepAt(s: string, start: nat, pos: nat, parts: seq<nat>, part: Option<nat>)
    requires start <= pos <= |s|
    requires Number(s[start..]) == if part.Some? then Some((part.value, s[pos..])) else None
    ensures CoreFrom(s, start, parts) ==
            if part.None? || |parts| + 1 > MAX_CORE_PARTS then None
            else if pos < |s| && s[pos] == '.' then CoreFrom(s, pos + 1, parts + [part.value])
            else Some((parts + [part.value], s[pos..]))
  {
    hide Core, Number, AfterParts;
    CoreStops(s[start..], |parts|);
    NoParts(parts);
    if part.Some? && |parts| + 1 <= MAX_CORE_PARTS {
      CoreStep(parts, s[start..]);
      TailAt(s, pos);
    }
  }

  lemma CoreStops(s: string, k: nat)
    ensures Number(s).None? || k + 1 > MAX_CORE_PARTS ==> Core(s, k).None?
  {}

  lemma NoParts(parts: seq<nat>)
    ensures AfterParts(parts, None) == None
  {}

  lemma TailAt(s: string, pos: nat)
    requires pos <= |s|
    ensures s[pos..] != "" <==> pos < |s|
    ensures pos < |s| ==> s[pos..][0] == s[pos] && s[pos..][1..] == s[pos + 1..]
  {}

  lemma CoreFromStart(s: string)
    ensures CoreFrom(s, 0, []) == Core(s, 0)
  {
    assert s[0..] == s;
    assert Core(s, 0).Some? ==> [] + Core(s, 0).value.0 == Core(s, 0).value.0;
  }

  lemma CoreFromEnd(s: string, parts: seq<nat>)
    ensures CoreFrom(s, |s|, parts) == None
  {
    assert s[|s|..] == "";
  }

  method ParseCore(s: string) returns (core: Option<(seq<nat>, string)>)
    requires s != ""
    ensures core == Core(s, 0)
  {
    hide *;
    var pos: nat := 0;
    var parts: seq<nat> := [];
    CoreFromStart(s);
    while pos < |s|
      invariant pos < |s| && CoreFrom(s, pos, parts) == Core(s, 0)
      decreases |s| - pos
    {
      var start, part := pos, None;
      pos, part := ReadPart(s, start);
      CoreStepAt(s, start, pos, parts, part);
      if part.None? { return None; }
      parts := parts + [part.value];
      if |parts| > MAX_CORE_PARTS { return None; }
      if pos == |s| || s[pos] != '.' {
        core := Some((parts, s[pos..]));
        return;
      }
      pos := pos + 1;
      if pos == |s| {
        CoreFromEnd(s, parts);
        return None;
      }
    }
    assert false;
  }

  lemma AppendAssoc(items: seq<string>, item: string, tail: seq<string>)
    ensures items + ([item] + tail) == (items + [item]) + tail
    ensures !ValidIdentifier(item) ==> !ValidIdentifiers(items + ([item] + tail))
  {
    assert (items + ([item] + tail))[|items|] == item;
  }

  /** One step of the identifier loop, when `items` were split off before `rest`. */
  lemma SplitStep(items: seq<string>, rest: string)
    ensures var dot := Find(rest, '.', 0);
            && (!ValidIdentifier(rest[..dot]) ==> !ValidIdentifiers(items + Split(rest, '.')))
            && (dot == |rest| ==> items + Split(rest, '.') == items + [rest[..dot]])
            && (dot < |rest| ==>
                items + Split(rest, '.') == (items + [rest[..dot]]) + Split(rest[dot + 1..], '.'))
  {
    var dot := Find(rest, '.', 0);
    if dot == |rest| {
      assert rest[..dot] == rest;
      AppendAssoc(items, rest, []);
      assert [rest] + [] == [rest];
    } else {
      AppendAssoc(items, rest[..dot], Split(rest[dot + 1..], '.'));
    }
  }

  method SplitIdentifiers(value: string) returns (output: Option<seq<string>>)
    ensures output == Identifiers(value)
  {
    if value == "" { return None; }
    var pos := 0;
    var items: seq<string> := [];
    assert value[0..] == value;
    while true
      invariant 0 <= pos <= |value|
      invariant items + Split(value[pos..], '.') == Split(value, '.')
      invariant forall i | 0 <= i < |items| :: ValidIdentifier(items[i])
      decreases |value| - pos
    {
      var rest := value[pos..];
      var dot := Find(rest, '.', 0);
      SplitStep(items, rest);
      if !ValidIdentifier(rest[..dot]) { return None; }
      items := items + [rest[..dot]];
      if dot == |rest| { return Some(items); }
      pos := pos + dot + 1;
      assert value[pos..] == rest[dot + 1..];
      if pos == |value| {
        SplitStep(items, "");
        return None;
      }
    }
  }

  method ParseSuffix(suffix: string) returns (r: Option<(string, Option<seq<string>>, Option<seq<string>>)>)
    ensures r == Suffix(suffix)
  {
    var revision, rest := "", suffix;
    if rest != "" && 'a' <= rest[0] <= 'z' {
      revision := rest[..1];
      rest := rest[1..];
    }
    assert rest == suffix[|RevisionOf(suffix)|..];
    var plus := Find(rest, '+', 0);
    var mid := rest[..plus];
    var build, pre := None, None;
    if plus < |rest| {
      assert rest[plus..][1..] == rest[plus + 1..];
      build := SplitIdentifiers(rest[plus + 1..]);
      if build.None? { return None; }
    }
    if mid != "" {
      if mid[0] != '-' { return None; }
      pre := SplitIdentifiers(mid[1..]);
      if pre.None? { return None; }
    }
    return Some((revision, pre, build));
  }

  method ParseVersion(text: string) returns (r: Option<Version>)
    ensures r == Parsed(text)
  {
    var value := StripV(text);
    if value == "" || |value| > MAX_TEXT { return None; }
    var core := ParseCore(value);
    if core.None? { return None; }
    var (parts, suffix) := core.value;
    var rest := ParseSuffix(suffix);
    if rest.None? { return None; }
    var (revision, pre, _) := rest.value;
    var result := Version(parts, suffix, false, revision, []);
    if pre.Some? {
      result := result.(prereleaseIds := pre.value, prerelease := true);
    }
    return Some(result);
  }

  // ---- the documented grammar -----------------------------------------------

  function Decimals(parts: seq<nat>): (r: seq<string>)
    ensures |r| == |parts| && forall i | 0 <= i < |r| :: r[i] == Decimal(parts[i])
  {
    seq(|parts|, i requires 0 <= i < |parts| => Decimal(parts[i]))
  }

  function SuffixText(revision: string, pre: Option<seq<string>>, build: Option<seq<string>>): string {
    revision + PrereleaseText(pre) + BuildText(build)
  }

  predicate WellFormedSuffix(revision: string, pre: Option<seq<string>>, build: Option<seq<string>>) {
    && (revision == "" || (|revision| == 1 && 'a' <= revision[0] <= 'z'))
    && (pre.Some? ==> ValidIdentifiers(pre.value))
    && (build.Some? ==> ValidIdentifiers(build.value))
  }

  function Prerelease(v: Version): Option<seq<string>> {
    if v.prerelease then Some(v.prereleaseIds) else None
  }

  /** version := core [revision] [prerelease] [build], with the length limits of the source. */
  predicate Derives(body: string, v: Version, build: Option<seq<string>>) {
    && CorePartsOk(v.parts, 0)
    && |body| <= MAX_TEXT
    && body == Join(Decimals(v.parts), '.') + v.suffix
    && v.suffix == SuffixText(v.revision, Prerelease(v), build)
    && WellFormedSuffix(v.revision, Prerelease(v), build)
    && (!v.prerelease ==> v.prereleaseIds == [])
  }

  // ---- soundness --------------------------------------------------------------

  lemma NumberSound(s: string)
    requires Number(s).Some?
    ensures var (n, rest) := Number(s).value; n < TWO64 && s == Decimal(n) + rest
  {
    var e := DigitCount(s);
    DecimalOfValue(s[..e]);
    assert s == s[..e] + s[e..];
  }

  lemma DecimalsCons(n: nat, rest: seq<nat>)
    requires rest != []
    ensures Join(Decimals([n] + rest), '.') == Decimal(n) + ['.'] + Join(Decimals(rest), '.')
  {
    assert Decimals([n] + rest) == [Decimal(n)] + Decimals(rest);
    JoinCons(Decimal(n), Decimals(rest), '.');
  }

  predicate CorePartsOk(parts: seq<nat>, k: nat) {
    1 <= |parts| && k + |parts| <= MAX_CORE_PARTS && forall i | 0 <= i < |parts| :: parts[i] < TWO64
  }

  lemma Dotted(head: string, mid: string, last: string)
    ensures (head + ['.'] + mid) + last == head + (['.'] + (mid + last))
  {}

  lemma {:induction false} CoreSound(s: string, k: nat)
    requires Core(s, k).Some?
    ensures CorePartsOk(Core(s, k).value.0, k)
    ensures s == Join(Decimals(Core(s, k).value.0), '.') + Core(s, k).value.1
    decreases |s|
  {
    hide Number, Decimals, Join;
    NumberSound(s);
    DecimalsOfOne(Number(s).value.0);
    var (n, rest) := Number(s).value;
    if rest != "" && rest[0] == '.' {
      var tail := rest[1..];
      CoreSound(tail, k + 1);
      var (more, last) := Core(tail, k + 1).value;
      assert rest == ['.'] + tail;
      DecimalsCons(n, more);
      Dotted(Decimal(n), Join(Decimals(more), '.'), last);
    }
  }

  lemma DecimalsOfOne(n: nat)
    ensures Join(Decimals([n]), '.') == Decimal(n)
  {}

  function PrereleaseText(pre: Option<seq<string>>): string {
    if pre.Some? then "-" + Join(pre.value, '.') else ""
  }

  function BuildText(build: Option<seq<string>>): string {
    if build.Some? then "+" + Join(build.value, '.') else ""
  }

  lemma MarkSound(s: string, mark: char)
    requires s != "" && s[0] == mark && Identifiers(s[1..]).Some?
    ensures s == [mark] + Join(Identifiers(s[1..]).value, '.')
  {
    JoinOfSplit(s[1..], '.');
    assert s == [s[0]] + s[1..];
  }

  lemma MarksSound(mid: string, tail: string)
    requires Marks(mid, tail).Some? && (tail == "" || tail[0] == '+')
    ensures var (pre, build) := Marks(mid, tail).value;
            mid == PrereleaseText(pre) && tail == BuildText(build) && WellFormedSuffix("", pre, build)
  {
    if mid != "" { MarkSound(mid, '-'); }
    if tail != "" { MarkSound(tail, '+'); }
  }

  lemma SuffixTextOf(revision: string, pre: Option<seq<string>>, build: Option<seq<string>>)
    ensures revision + (PrereleaseText(pre) + BuildText(build)) == SuffixText(revision, pre, build)
  {}

  lemma CutInTwo(s: string, n: nat)
    requires n <= |s|
    ensures s[..n] + s[n..] == s
  {}

  lemma SuffixSound(s: string)
    requires Suffix(s).Some?
    ensures var (revision, pre, build) := Suffix(s).value;
            s == SuffixText(revision, pre, build) && WellFormedSuffix(revision, pre, build)
  {
    var (revision, pre, build) := Suffix(s).value;
    var rest := s[|revision|..];
    var plus := Find(rest, '+', 0);
    MarksSound(rest[..plus], rest[plus..]);
    CutInTwo(rest, plus);
    CutInTwo(s, |revision|);
    SuffixTextOf(revision, pre, build);
  }

  /** Every accepted text derives from the grammar. */
  lemma ParseSound(text: string)
    requires Parsed(text).Some?
    ensures exists build :: Derives(StripV(text), Parsed(text).value, build)
  {
    hide Core, Suffix, Join, Decimals, StripV, SuffixText;
    var s := StripV(text);
    CoreSound(s, 0);
    var suffix := Core(s, 0).value.1;
    SuffixSound(suffix);
    assert Derives(s, Parsed(text).value, Suffix(suffix).value.2);
  }

  // ---- completeness -----------------------------------------------------------

  lemma {:induction false} DigitCountIs(digits: string, rest: string)
    requires AllDigits(digits) && (rest != "" ==> !IsDigit(rest[0]))
    ensures DigitCount(digits + rest) == |digits|
  {
    if digits == "" {
      assert digits + rest == rest;
    } else {
      assert (digits + rest)[1..] == digits[1..] + rest;
      DigitCountIs(digits[1..], rest);
    }
  }

  lemma NumberComplete(n: nat, rest: string)
    requires n < TWO64 && (rest != "" ==> !IsDigit(rest[0]))
    ensures Number(Decimal(n) + rest) == Some((n, rest))
  {
    DecimalCanonical(n);
    ValueOfDecimal(n);
    DigitCountIs(Decimal(n), rest);
    var s := Decimal(n) + rest;
    assert s[..|Decimal(n)|] == Decimal(n) && s[|Decimal(n)|..] == rest;
  }

  lemma CoreCompleteStep(n: nat, tail: seq<nat>, suffix: string, k: nat)
    requires n < TWO64 && tail != [] && k + 1 <= MAX_CORE_PARTS
    requires Core(Join(Decimals(tail), '.') + suffix, k + 1) == Some((tail, suffix))
    ensures Core(Join(Decimals([n] + tail), '.') + suffix, k) == Some(([n] + tail, suffix))
  {
    var joined := Join(Decimals(tail), '.');
    var rest := joined + suffix;
    var text := Decimal(n) + (['.'] + rest);
    assert Join(Decimals([n] + tail), '.') + suffix == text by {
      DecimalsCons(n, tail);
      Dotted(Decimal(n), joined, suffix);
    }
    NumberComplete(n, ['.'] + rest);
    CoreUnfold(text, n, rest, k);
  }

  lemma CoreOfOne(n: nat, suffix: string, k: nat)
    requires n < TWO64 && k + 1 <= MAX_CORE_PARTS
    requires suffix != "" ==> !IsDigit(suffix[0]) && suffix[0] != '.'
    ensures Core(Join(Decimals([n]), '.') + suffix, k) == Some(([n], suffix))
  {
    NumberComplete(n, suffix);
  }

  lemma {:induction false} CoreComplete(parts: seq<nat>, suffix: string, k: nat)
    requires CorePartsOk(parts, k)
    requires suffix != "" ==> !IsDigit(suffix[0]) && suffix[0] != '.'
    ensures Core(Join(Decimals(parts), '.') + suffix, k) == Some((parts, suffix))
    decreases |parts|
  {
    var n, tail := parts[0], parts[1..];
    assert parts == [n] + tail;
    if tail == [] {
      assert parts == [n];
      CoreOfOne(n, suffix, k);
    } else {
      CoreComplete(tail, suffix, k + 1);
      CoreCompleteStep(n, tail, suffix, k);
    }
  }

  lemma CoreUnfold(s: string, n: nat, tail: string, k: nat)
    requires Number(s) == Some((n, ['.'] + tail)) && k + 1 <= MAX_CORE_PARTS
    ensures Core(s, k) == Prepend(n, Core(tail, k + 1))
  {
    assert (['.'] + tail)[1..] == tail;
  }

  lemma {:induction false} JoinChars(ids: seq<string>, c: char)
    requires forall i | 0 <= i < |ids| :: forall j | 0 <= j < |ids[i]| :: IsIdentifierChar(ids[i][j])
    requires !IsIdentifierChar(c) && c != '.'
    ensures c !in Join(ids, '.')
  {
    if |ids| > 1 { JoinChars(ids[1..], c); }
  }

  lemma IdentifiersComplete(ids: seq<string>)
    requires ValidIdentifiers(ids)
    ensures Identifiers(Join(ids, '.')) == Some(ids)
    ensures '+' !in Join(ids, '.')
  {
    SplitOfJoin(ids, '.');
    JoinChars(ids, '+');
    assert ValidIdentifier(ids[0]);
  }

  lemma MarksComplete(pre: Option<seq<string>>, build: Option<seq<string>>)
    requires WellFormedSuffix("", pre, build)
    ensures Marks(PrereleaseText(pre), BuildText(build)) == Some((pre, build))
    ensures '+' !in PrereleaseText(pre)
  {
    if pre.Some? { IdentifiersComplete(pre.value); assert PrereleaseText(pre)[1..] == Join(pre.value, '.'); }
    if build.Some? { IdentifiersComplete(build.value); assert BuildText(build)[1..] == Join(build.value, '.'); }
  }

  lemma FindSplits(mid: string, tail: string)
    requires '+' !in mid && (tail == "" || tail[0] == '+')
    ensures Find(mid + tail, '+', 0) == |mid|
    ensures (mid + tail)[..|mid|] == mid && (mid + tail)[|mid|..] == tail
  {
    var s := mid + tail;
    assert forall i | 0 <= i < |mid| :: s[i] == mid[i];
    if tail != "" { assert s[|mid|] == tail[0]; }
  }

  lemma RevisionFound(revision: string, rest: string)
    requires revision == "" || (|revision| == 1 && 'a' <= revision[0] <= 'z')
    requires revision == "" && rest != "" ==> !('a' <= rest[0] <= 'z')
    ensures RevisionOf(revision + rest) == revision && (revision + rest)[|revision|..] == rest
  {}

  lemma SuffixComplete(revision: string, pre: Option<seq<string>>, build: Option<seq<string>>)
    requires WellFormedSuffix(revision, pre, build)
    ensures Suffix(SuffixText(revision, pre, build)) == Some((revision, pre, build))
  {
    var mid, tail := PrereleaseText(pre), BuildText(build);
    MarksComplete(pre, build);
    FindSplits(mid, tail);
    assert mid + tail != "" ==> (mid + tail)[0] == '-' || (mid + tail)[0] == '+';
    RevisionFound(revision, mid + tail);
    SuffixTextOf(revision, pre, build);
  }

  /** Every text of the grammar is accepted, with exactly the derived fields. */
  lemma ParseComplete(text: string, v: Version, build: Option<seq<string>>)
    requires Derives(StripV(text), v, build)
    ensures Parsed(text) == Some(v)
    ensures Suffix(v.suffix).Some? && Suffix(v.suffix).value.2 == build
  {
    CoreComplete(v.parts, v.suffix, 0);
    SuffixComplete(v.revision, Prerelease(v), build);
    DecimalCanonical(v.parts[0]);
  }

  // ---- main results -----------------------------------------------------------

  /** `ParseVersion` accepts exactly the documented grammar and returns its derivation. */
  lemma ParseExact(text: string, v: Version)
    ensures Parsed(text) == Some(v) <==> exists build :: Derives(StripV(text), v, build)
  {
    if Parsed(text) == Some(v) { ParseSound(text); }
    if build :| Derives(StripV(text), v, build) { ParseComplete(text, v, build); }
  }

  /** No aliases: the parsed fields rebuild the text (after an optional `v`), so two accepted
      texts with equal fields are the same text. */
  lemma NoAliases(a: string, b: string)
    requires Parsed(a).Some? && Parsed(b).Some?
    ensures StripV(a) == Join(Decimals(Parsed(a).value.parts), '.') + Parsed(a).value.suffix
    ensures Parsed(a) == Parsed(b) <==> StripV(a) == StripV(b)
  {
    ParseSound(a);
    ParseSound(b);
  }

  /** The suffix splits in only one way into revision, prerelease and build. */
  lemma SuffixSplitsUniquely(s: string, v: Version, build: Option<seq<string>>,
                             w: Version, otherBuild: Option<seq<string>>)
    requires Derives(s, v, build) && Derives(s, w, otherBuild)
    ensures v == w && build == otherBuild
  {
    var text := "v" + s;
    assert StripV(text) == s;
    ParseComplete(text, v, build);
    ParseComplete(text, w, otherBuild);
  }

  // ---- accepted texts are ASCII ------------------------------------------------

  predicate Ascii(s: string) { forall i | 0 <= i < |s| :: s[i] as nat < 0x80 }

  lemma {:induction false} AsciiJoin(parts: seq<string>, sep: char)
    requires sep as nat < 0x80 && forall i | 0 <= i < |parts| :: Ascii(parts[i])
    ensures Ascii(Join(parts, sep))
  {
    if |parts| > 1 {
      AsciiJoin(parts[1..], sep);
    }
  }

  lemma AsciiConcat(a: string, b: string)
    requires Ascii(a) && Ascii(b)
    ensures Ascii(a + b)
  {}

  lemma AsciiSuffix(revision: string, pre: Option<seq<string>>, build: Option<seq<string>>)
    requires WellFormedSuffix(revision, pre, build)
    ensures Ascii(SuffixText(revision, pre, build))
  {
    if pre.Some? {
      AsciiJoin(pre.value, '.');
      AsciiConcat("-", Join(pre.value, '.'));
    }
    if build.Some? {
      AsciiJoin(build.value, '.');
      AsciiConcat("+", Join(build.value, '.'));
    }
    AsciiConcat(revision, PrereleaseText(pre));
    AsciiConcat(revision + PrereleaseText(pre), BuildText(build));
  }

  /** Every accepted text is a short ASCII text. */
  lemma ParsedIsAscii(text: string)
    requires Parsed(text).Some?
    ensures Ascii(text) && |text| <= MAX_TEXT + 1
  {
    hide Parsed, Join, Decimals, SuffixText, WellFormedSuffix, Prerelease;
    ParseSound(text);
    var v := Parsed(text).value;
    var build :| Derives(StripV(text), v, build);
    AsciiJoin(Decimals(v.parts), '.');
    AsciiSuffix(v.revision, Prerelease(v), build);
    AsciiConcat(Join(Decimals(v.parts), '.'), v.suffix);
    if StripV(text) != text { AsciiConcat(text[..1], StripV(text)); assert text == text[..1] + StripV(text); }
  }

  // ---- the grammar, spelled out ---------------------------------------------------------------

  /** An ASCII letter, a digit or a hyphen. */
  predicate WordChar(c: char) {
    var n := c as int;
    0x30 <= n <= 0x39 || 0x41 <= n <= 0x5A || 0x61 <= n <= 0x7A || n == 0x2D
  }

  /** One to 48 of them. */
  predicate Word(s: string) { 1 <= |s| <= 48 && forall i | 0 <= i < |s| :: WordChar(s[i]) }

  predicate Words(ids: seq<string>) { ids != [] && forall i | 0 <= i < |ids| :: Word(ids[i]) }

  /** At most 64 characters: one to eight 64-bit numbers, a lower-case letter or none, a hyphen with
      the prerelease words, and a plus sign with the build words. */
  predicate Spelled(body: string, v: Version, build: Option<seq<string>>) {
    && 1 <= |v.parts| <= 8 && (forall i | 0 <= i < |v.parts| :: v.parts[i] < 18_446_744_073_709_551_616)
    && |body| <= 64 && body == Join(Decimals(v.parts), '.') + v.suffix
    && v.suffix == v.revision + (if v.prerelease then "-" + Join(v.prereleaseIds, '.') else "")
                   + (if build.Some? then "+" + Join(build.value, '.') else "")
    && (v.revision == "" || (|v.revision| == 1 && 0x61 <= v.revision[0] as int <= 0x7A))
    && (if v.prerelease then Words(v.prereleaseIds) else v.prereleaseIds == [])
    && (build.Some? ==> Words(build.value))
  }

  lemma WordExactly(s: string)
    ensures ValidIdentifier(s) <==> Word(s)
  {
    forall c: char ensures IsIdentifierChar(c) <==> WordChar(c) {}
  }

  lemma WordsExactly(ids: seq<string>)
    ensures ValidIdentifiers(ids) <==> Words(ids)
  {
    hide ValidIdentifier, Word;
    forall s: string ensures ValidIdentifier(s) <==> Word(s) { WordExactly(s); }
  }

  lemma DerivesExactly(body: string, v: Version, build: Option<seq<string>>)
    ensures Derives(body, v, build) <==> Spelled(body, v, build)
  {
    hide ValidIdentifiers, Words, Join, Decimals;
    WordsExactly(v.prereleaseIds);
    if build.Some? { WordsExactly(build.value); }
  }

  lemma SpelledStart(body: string, v: Version, build: Option<seq<string>>)
    requires Spelled(body, v, build)
    ensures body != "" && IsDigit(body[0])
  {
    hide Words;
    DecimalCanonical(v.parts[0]);
    assert Decimals(v.parts)[0] == Decimal(v.parts[0]);
  }

  /** A text is parsed to a version exactly when it is that version spelled out, after an optional v. */
  lemma ParsedExactly(text: string, v: Version)
    ensures Parsed(text) == Some(v) <==>
            exists build: Option<seq<string>> ::
              Spelled(text, v, build)
              || (text != "" && (text[0] as int == 0x76 || text[0] as int == 0x56) && Spelled(text[1..], v, build))
  {
    hide Derives, Spelled, Parsed;
    ParseExact(text, v);
    forall build: Option<seq<string>>
      ensures Derives(StripV(text), v, build) <==> Spelled(StripV(text), v, build)
      ensures Spelled(text, v, build) ==> text != "" && IsDigit(text[0])
    {
      DerivesExactly(StripV(text), v, build);
      if Spelled(text, v, build) { SpelledStart(text, v, build); }
    }
  }
}
