/** The order of versions, on which the ban on downgrades rests. */
module VersionOrder {
  import opened Texts
  import opened Versions

  // ---- what the comparisons compute -----------------------------------------

  /** Lexicographic comparison of code units, as `std::string::compare`. */
  function CompareText(a: string, b: string): (c: int)
    ensures c == 0 <==> a == b
  {
    if a == "" && b == "" then 0
    else if a == "" then -1
    else if b == "" then 1
    else if a[0] != b[0] then (if a[0] < b[0] then -1 else 1)
    else assert a == [a[0]] + a[1..] && b == [b[0]] + b[1..]; CompareText(a[1..], b[1..])
  }

  function CompareNumber(a: nat, b: nat): int {
    if a < b then -1 else if a > b then 1 else 0
  }

  predicate IsNumeric(id: string) { Canonical(id) }

  predicate Fits(id: string)
    requires IsNumeric(id)
  {
    Value(id) < TWO64
  }

  /** One prerelease identifier against another: a numeric identifier that does not fit in
      64 bits falls back to the comparison of texts. */
  function CompareIdentifier(a: string, b: string): int {
    if IsNumeric(a) != IsNumeric(b) then (if IsNumeric(a) then -1 else 1)
    else if IsNumeric(a) && Fits(a) && Fits(b) then CompareNumber(Value(a), Value(b))
    else CompareText(a, b)
  }

  function CompareIds(a: seq<string>, b: seq<string>): int {
    if a == [] && b == [] then 0
    else if a == [] then -1
    else if b == [] then 1
    else if CompareIdentifier(a[0], b[0]) != 0 then CompareIdentifier(a[0], b[0])
    else CompareIds(a[1..], b[1..])
  }

  function PartAt(parts: seq<nat>, i: nat): nat { if i < |parts| then parts[i] else 0 }

  function PaddedLength(a: seq<nat>, b: seq<nat>): nat { if |a| > |b| then |a| else |b| }

  /** Core numbers from index `i` on, the shorter core padded with zeros. */
  function CompareParts(a: seq<nat>, b: seq<nat>, i: nat): int
    decreases PaddedLength(a, b) - i
  {
    if i >= PaddedLength(a, b) then 0
    else if PartAt(a, i) != PartAt(b, i) then CompareNumber(PartAt(a, i), PartAt(b, i))
    else CompareParts(a, b, i + 1)
  }

  function ComparePrerelease(a: Version, b: Version): int {
    if a.prerelease != b.prerelease then (if a.prerelease then -1 else 1)
    else if !a.prerelease then 0
    else CompareIds(a.prereleaseIds, b.prereleaseIds)
  }

  function Compare(a: Version, b: Version): int {
    if CompareParts(a.parts, b.parts, 0) != 0 then CompareParts(a.parts, b.parts, 0)
    else if a.revision != b.revision then CompareText(a.revision, b.revision)
    else ComparePrerelease(a, b)
  }

  // ---- the comparisons, as they run -----------------------------------------

  method CompareIdentifiers(left: seq<string>, right: seq<string>) returns (r: int)
    ensures r == CompareIds(left, right)
  {
    var count := if |left| < |right| then |left| else |right|;
    var i := 0;
    assert left[0..] == left && right[0..] == right;
    while i < count
      invariant 0 <= i <= count
      invariant CompareIds(left, right) == CompareIds(left[i..], right[i..])
    {
      hide CompareText, Value, Canonical;
      assert left[i..][1..] == left[i + 1..] && right[i..][1..] == right[i + 1..];
      var leftNumeric, rightNumeric := IsNumeric(left[i]), IsNumeric(right[i]);
      if leftNumeric != rightNumeric { return if leftNumeric then -1 else 1; }
      if leftNumeric && Fits(left[i]) && Fits(right[i]) {
        var l, r := Value(left[i]), Value(right[i]);
        if l != r { return if l < r then -1 else 1; }
      } else if left[i] != right[i] {
        return CompareText(left[i], right[i]);
      }
      i := i + 1;
    }
    if |left| == |right| { return 0; }
    return if |left| < |right| then -1 else 1;
  }

  method CompareVersions(left: Version, right: Version) returns (r: int)
    ensures r == Compare(left, right)
  {
    var count := PaddedLength(left.parts, right.parts);
    var i := 0;
    while i < count
      invariant 0 <= i <= count
      invariant CompareParts(left.parts, right.parts, 0) == CompareParts(left.parts, right.parts, i)
    {
      var l, r := PartAt(left.parts, i), PartAt(right.parts, i);
      if l < r { return -1; }
      if l > r { return 1; }
      i := i + 1;
    }
    if left.revision != right.revision {
      if left.revision == "" { return -1; }
      if right.revision == "" { return 1; }
      return CompareText(left.revision, right.revision);
    }
    if left.prerelease != right.prerelease { return if left.prerelease then -1 else 1; }
    if !left.prerelease { return 0; }
    r := CompareIdentifiers(left.prereleaseIds, right.prereleaseIds);
  }

  // ---- antisymmetry, without any bound --------------------------------------

  lemma {:induction false} TextAntisymmetric(a: string, b: string)
    ensures CompareText(a, b) == -CompareText(b, a)
    ensures -1 <= CompareText(a, b) <= 1
  {
    if a != "" && b != "" { TextAntisymmetric(a[1..], b[1..]); }
  }

  lemma IdentifierAntisymmetric(a: string, b: string)
    ensures CompareIdentifier(a, b) == -CompareIdentifier(b, a)
    ensures -1 <= CompareIdentifier(a, b) <= 1
  {
    TextAntisymmetric(a, b);
  }

  lemma {:induction false} IdsAntisymmetric(a: seq<string>, b: seq<string>)
    ensures CompareIds(a, b) == -CompareIds(b, a)
    ensures -1 <= CompareIds(a, b) <= 1
  {
    if a != [] && b != [] {
      IdentifierAntisymmetric(a[0], b[0]);
      IdsAntisymmetric(a[1..], b[1..]);
    }
  }

  lemma {:induction false} PartsAntisymmetric(a: seq<nat>, b: seq<nat>, i: nat)
    ensures CompareParts(a, b, i) == -CompareParts(b, a, i)
    ensures -1 <= CompareParts(a, b, i) <= 1
    decreases PaddedLength(a, b) - i
  {
    if i < PaddedLength(a, b) { PartsAntisymmetric(a, b, i + 1); }
  }

  /** `CompareVersions` is antisymmetric and answers -1, 0 or 1, on all versions. */
  lemma CompareAntisymmetric(a: Version, b: Version)
    ensures Compare(a, b) == -Compare(b, a)
    ensures -1 <= Compare(a, b) <= 1
  {
    PartsAntisymmetric(a.parts, b.parts, 0);
    TextAntisymmetric(a.revision, b.revision);
    IdsAntisymmetric(a.prereleaseIds, b.prereleaseIds);
  }

  // ---- transitivity under a bound ---------------------------------------------

  /** Every numeric prerelease identifier of `v` is smaller than `bound`. */
  predicate NumbersBelow(v: Version, bound: nat) {
    IdsBelow(v.prereleaseIds, bound)
  }

  predicate IdsBelow(ids: seq<string>, bound: nat) {
    forall i | 0 <= i < |ids| :: IsNumeric(ids[i]) ==> Value(ids[i]) < bound
  }

  /** The three answers of a comparison chain `a`, `b`, `c` agree with an order. */
  predicate Chain(ab: int, bc: int, ac: int) {
    ab <= 0 && bc <= 0 ==> ac <= 0 && (ac == 0 ==> ab == 0 && bc == 0)
  }

  lemma {:induction false} TextChain(a: string, b: string, c: string)
    ensures Chain(CompareText(a, b), CompareText(b, c), CompareText(a, c))
  {
    if a != "" && b != "" && c != "" { TextChain(a[1..], b[1..], c[1..]); }
  }

  predicate Below(id: string, bound: nat) { IsNumeric(id) ==> Value(id) < bound }

  lemma IdentifierChain(a: string, b: string, c: string)
    requires Below(a, TWO64) && Below(b, TWO64) && Below(c, TWO64)
    ensures Chain(CompareIdentifier(a, b), CompareIdentifier(b, c), CompareIdentifier(a, c))
  {
    TextChain(a, b, c);
  }

  lemma IdentifierEqual(a: string, b: string)
    ensures CompareIdentifier(a, b) == 0 <==> a == b
  {
    if IsNumeric(a) && IsNumeric(b) {
      DecimalOfValue(a);
      DecimalOfValue(b);
    }
  }

  lemma {:induction false} IdsChain(a: seq<string>, b: seq<string>, c: seq<string>)
    requires IdsBelow(a, TWO64) && IdsBelow(b, TWO64) && IdsBelow(c, TWO64)
    ensures Chain(CompareIds(a, b), CompareIds(b, c), CompareIds(a, c))
  {
    if a != [] && b != [] && c != [] {
      hide CompareIdentifier;
      IdentifierChain(a[0], b[0], c[0]);
      IdentifierEqual(a[0], b[0]);
      IdentifierEqual(b[0], c[0]);
      IdentifierEqual(a[0], c[0]);
      IdsChain(a[1..], b[1..], c[1..]);
    }
  }

  lemma {:induction false} PartsEqual(a: seq<nat>, b: seq<nat>, i: nat)
    ensures CompareParts(a, b, i) == 0 <==> forall j | j >= i :: PartAt(a, j) == PartAt(b, j)
    decreases PaddedLength(a, b) - i
  {
    if i < PaddedLength(a, b) { PartsEqual(a, b, i + 1); }
  }

  /** The first core number that differs decides; `n` covers all three lengths. */
  lemma {:induction false} PartsChain(a: seq<nat>, b: seq<nat>, c: seq<nat>, i: nat, n: nat)
    requires n >= |a| && n >= |b| && n >= |c|
    ensures Chain(CompareParts(a, b, i), CompareParts(b, c, i), CompareParts(a, c, i))
    decreases n - i
  {
    if i < n {
      PartsChain(a, b, c, i + 1, n);
      PartsStep(a, b, i);
      PartsStep(b, c, i);
      PartsStep(a, c, i);
    }
  }

  lemma PartsStep(a: seq<nat>, b: seq<nat>, i: nat)
    ensures CompareParts(a, b, i) ==
            if PartAt(a, i) != PartAt(b, i) then CompareNumber(PartAt(a, i), PartAt(b, i))
            else CompareParts(a, b, i + 1)
  {}

  lemma PrereleaseChain(a: Version, b: Version, c: Version)
    requires NumbersBelow(a, TWO64) && NumbersBelow(b, TWO64) && NumbersBelow(c, TWO64)
    ensures Chain(ComparePrerelease(a, b), ComparePrerelease(b, c), ComparePrerelease(a, c))
  {
    IdsChain(a.prereleaseIds, b.prereleaseIds, c.prereleaseIds);
  }

  /** Below the 64-bit bound the comparisons along a chain agree with a total preorder. */
  lemma CompareChain(a: Version, b: Version, c: Version)
    requires NumbersBelow(a, TWO64) && NumbersBelow(b, TWO64) && NumbersBelow(c, TWO64)
    ensures Chain(Compare(a, b), Compare(b, c), Compare(a, c))
  {
    hide CompareParts, CompareText, ComparePrerelease;
    var n := PaddedLength(a.parts, b.parts) + |c.parts|;
    PartsChain(a.parts, b.parts, c.parts, 0, n);
    PartsEqual(a.parts, b.parts, 0);
    PartsEqual(b.parts, c.parts, 0);
    PartsEqual(a.parts, c.parts, 0);
    TextChain(a.revision, b.revision, c.revision);
    PrereleaseChain(a, b, c);
  }

  /** A set of versions on which the comparison is transitive. */
  ghost predicate TransitiveBelow(bound: nat) {
    forall x, y, z | Parsed(x).Some? && Parsed(y).Some? && Parsed(z).Some?
      && NumbersBelow(Parsed(x).value, bound) && NumbersBelow(Parsed(y).value, bound)
      && NumbersBelow(Parsed(z).value, bound)
      :: Chain(Compare(Parsed(x).value, Parsed(y).value), Compare(Parsed(y).value, Parsed(z).value),
               Compare(Parsed(x).value, Parsed(z).value))
  }

  // ---- the cycle above the bound -------------------------------------------------

  /** The decimal text of 2^64, the smallest number that does not fit. */
  const HUGE: string := Decimal(TWO64)

  /** The version text with core 1 and one prerelease identifier. */
  function PreText(id: string): string { "1-" + id }

  function PreVersion(id: string): Version { Version([1], "-" + id, true, "", [id]) }

  lemma PreParses(id: string)
    requires ValidIdentifier(id)
    ensures Parsed(PreText(id)) == Some(PreVersion(id))
  {
    var v := PreVersion(id);
    assert Join([id], '.') == id;
    assert v.suffix == SuffixText("", Some([id]), None);
    assert Decimal(1) == "1";
    assert Join(Decimals([1]), '.') == "1";
    assert PreText(id) == "1" + v.suffix;
    assert StripV(PreText(id)) == PreText(id);
    assert Derives(PreText(id), v, None);
    ParseComplete(PreText(id), v, None);
  }

  /** `n` in decimal is `top` followed by `k` more digits. */
  predicate Leads(n: nat, top: nat, k: nat) {
    if k == 0 then n == top else n >= 10 && Leads(n / 10, top, k - 1)
  }

  lemma {:induction false} LeadingDigits(n: nat, top: nat, k: nat)
    requires Leads(n, top, k)
    ensures Decimal(top) <= Decimal(n)
    ensures |Decimal(n)| == |Decimal(top)| + k
  {
    if k > 0 { LeadingDigits(n / 10, top, k - 1); }
  }

  lemma HugeLeads()
    ensures Leads(TWO64, 18446744073, 9)
    ensures Leads(18446744073, 18, 9)
  {
    assert Leads(18446744073709, 18446744073, 3);
    assert Leads(18446744073709551, 18446744073, 6);
    assert Leads(18446744, 18, 6);
  }

  lemma HugeText()
    ensures Canonical(HUGE) && Value(HUGE) == TWO64 && ValidIdentifier(HUGE)
    ensures |HUGE| >= 2 && HUGE[0] == '1' && HUGE[1] == '8'
  {
    hide Leads, Value;
    ValueOfDecimal(TWO64);
    DecimalCanonical(TWO64);
    HugeLeads();
    LeadingDigits(TWO64, 18446744073, 9);
    LeadingDigits(18446744073, 18, 9);
    EighteenText();
  }

  lemma EighteenText()
    ensures Decimal(18) == "18"
  {}

  lemma SmallValues()
    ensures Canonical("9") && Value("9") == 9 && Canonical("10") && Value("10") == 10
  {
    assert Decimal(9) == "9" && Decimal(10) == "10";
    ValueOfDecimal(9);
    ValueOfDecimal(10);
  }

  /** 9 < 10 as numbers, 10 < 2^64 and 2^64 < 9 as texts: from 2^64 on the order has a cycle. */
  lemma OverflowCycle()
    ensures Parsed(PreText("9")) == Some(PreVersion("9"))
    ensures Parsed(PreText("10")) == Some(PreVersion("10"))
    ensures Parsed(PreText(HUGE)) == Some(PreVersion(HUGE))
    ensures NumbersBelow(PreVersion("9"), 10) && NumbersBelow(PreVersion("10"), 11)
    ensures NumbersBelow(PreVersion(HUGE), TWO64 + 1)
    ensures Compare(PreVersion("9"), PreVersion("10")) < 0
    ensures Compare(PreVersion("10"), PreVersion(HUGE)) < 0
    ensures Compare(PreVersion(HUGE), PreVersion("9")) < 0
  {
    hide Value, Decimal;
    HugeText();
    SmallValues();
    PreParses("9");
    PreParses("10");
    PreParses(HUGE);
    SingleIdentifier("9", "10");
    SingleIdentifier("10", HUGE);
    SingleIdentifier(HUGE, "9");
    assert CompareText("10", HUGE) < 0 by { assert CompareText("10"[1..], HUGE[1..]) < 0; }
    assert CompareText(HUGE, "9") < 0;
  }

  lemma SingleIdentifier(a: string, b: string)
    requires a != b
    ensures Compare(PreVersion(a), PreVersion(b)) == CompareIdentifier(a, b)
  {
    IdentifierEqual(a, b);
  }

  /** The order is transitive on the parsed versions whose numeric prerelease identifiers stay
      below a bound exactly when the bound is at most 2^64. */
  lemma TransitiveExactly(bound: nat)
    ensures TransitiveBelow(bound) <==> bound <= TWO64
  {
    hide Compare, Parsed;
    if bound <= TWO64 {
      forall x, y, z | Parsed(x).Some? && Parsed(y).Some? && Parsed(z).Some?
        && NumbersBelow(Parsed(x).value, bound) && NumbersBelow(Parsed(y).value, bound)
        && NumbersBelow(Parsed(z).value, bound)
        ensures Chain(Compare(Parsed(x).value, Parsed(y).value), Compare(Parsed(y).value, Parsed(z).value),
                      Compare(Parsed(x).value, Parsed(z).value))
      {
        CompareChain(Parsed(x).value, Parsed(y).value, Parsed(z).value);
      }
    } else {
      OverflowCycle();
      var a, b, c := PreText("9"), PreText("10"), PreText(HUGE);
      CompareAntisymmetric(PreVersion(HUGE), PreVersion("9"));
      assert NumbersBelow(Parsed(a).value, bound) && NumbersBelow(Parsed(b).value, bound);
      assert NumbersBelow(Parsed(c).value, bound);
      assert !Chain(Compare(Parsed(a).value, Parsed(b).value), Compare(Parsed(b).value, Parsed(c).value),
                    Compare(Parsed(a).value, Parsed(c).value));
    }
  }

  // ---- what equality and order mean ---------------------------------------------

  predicate SamePaddedCore(a: seq<nat>, b: seq<nat>) {
    forall j | 0 <= j < PaddedLength(a, b) :: PartAt(a, j) == PartAt(b, j)
  }

  lemma {:induction false} IdsEqual(a: seq<string>, b: seq<string>)
    ensures CompareIds(a, b) == 0 <==> a == b
  {
    if a != [] && b != [] {
      hide CompareIdentifier;
      IdentifierEqual(a[0], b[0]);
      IdsEqual(a[1..], b[1..]);
      assert a == [a[0]] + a[1..] && b == [b[0]] + b[1..];
    }
  }

  /** `CompareVersions` answers 0 exactly for equal zero-padded cores, revisions and
      prerelease identifier lists; build identifiers never matter. */
  lemma EqualExactly(x: string, y: string)
    requires Parsed(x).Some? && Parsed(y).Some?
    ensures var a, b := Parsed(x).value, Parsed(y).value;
            Compare(a, b) == 0 <==>
            SamePaddedCore(a.parts, b.parts) && a.revision == b.revision
            && a.prerelease == b.prerelease && a.prereleaseIds == b.prereleaseIds
  {
    hide CompareParts, CompareText, CompareIds;
    var a, b := Parsed(x).value, Parsed(y).value;
    ParseSound(x);
    ParseSound(y);
    PartsEqual(a.parts, b.parts, 0);
    IdsEqual(a.prereleaseIds, b.prereleaseIds);
  }

  /** ASCII order: `a` and `b` agree before index `k` and `a` is smaller there, or ends there. */
  ghost predicate TextBeforeAt(a: string, b: string, k: nat) {
    k <= |a| && k < |b| && a[..k] == b[..k] && (k == |a| || a[k] < b[k])
  }

  ghost predicate TextBefore(a: string, b: string) { exists k: nat :: TextBeforeAt(a, b, k) }

  /** Section 11.4 of SemVer 2.0.0 for one pair of identifiers. */
  ghost predicate SemVerIdentifierBefore(a: string, b: string) {
    if Canonical(a) && Canonical(b) then Value(a) < Value(b)
    else if Canonical(a) != Canonical(b) then Canonical(a)
    else TextBefore(a, b)
  }

  /** The same, except that numbers of which one has no 64 bits are ordered as texts. */
  ghost predicate IdentifierBefore(a: string, b: string) {
    if Canonical(a) && Canonical(b) && (Value(a) >= TWO64 || Value(b) >= TWO64) then TextBefore(a, b)
    else SemVerIdentifierBefore(a, b)
  }

  /** Section 11.4 of SemVer 2.0.0 for lists: the first differing identifier decides, and a
      list that is a proper prefix of the other comes first. */
  ghost predicate ListBeforeAt(a: seq<string>, b: seq<string>, k: nat) {
    k <= |a| && k < |b| && a[..k] == b[..k] && (k == |a| || IdentifierBefore(a[k], b[k]))
  }

  ghost predicate SemVerBeforeAt(a: seq<string>, b: seq<string>, k: nat) {
    k <= |a| && k < |b| && a[..k] == b[..k] && (k == |a| || SemVerIdentifierBefore(a[k], b[k]))
  }

  ghost predicate ListBefore(a: seq<string>, b: seq<string>) { exists k: nat :: ListBeforeAt(a, b, k) }

  lemma {:induction false} TextIsAscii(a: string, b: string)
    ensures CompareText(a, b) < 0 <==> TextBefore(a, b)
  {
    if a != "" && b != "" && a[0] == b[0] {
      TextIsAscii(a[1..], b[1..]);
      if k: nat :| TextBeforeAt(a[1..], b[1..], k) {
        assert a[..k + 1] == [a[0]] + a[1..][..k] && b[..k + 1] == [b[0]] + b[1..][..k];
        assert TextBeforeAt(a, b, k + 1);
      }
      if k: nat :| TextBeforeAt(a, b, k) {
        assert k > 0;
        assert a[1..][..k - 1] == a[..k][1..] && b[1..][..k - 1] == b[..k][1..];
        assert TextBeforeAt(a[1..], b[1..], k - 1);
      }
    } else if CompareText(a, b) < 0 {
      assert a[..0] == b[..0];
      assert TextBeforeAt(a, b, 0);
    }
  }

  lemma IdentifierIsBefore(a: string, b: string)
    ensures CompareIdentifier(a, b) < 0 <==> IdentifierBefore(a, b)
  {
    TextIsAscii(a, b);
  }

  lemma {:induction false} ListIsBefore(a: seq<string>, b: seq<string>)
    ensures CompareIds(a, b) < 0 <==> ListBefore(a, b)
  {
    if a != [] && b != [] {
      hide CompareIdentifier, IdentifierBefore;
      IdentifierEqual(a[0], b[0]);
      IdentifierIsBefore(a[0], b[0]);
      ListIsBefore(a[1..], b[1..]);
      ListStep(a, b);
    } else if a == [] && b != [] {
      assert a[..0] == b[..0];
      assert ListBeforeAt(a, b, 0);
    }
  }

  lemma ListStep(a: seq<string>, b: seq<string>)
    requires a != [] && b != [] && (a[0] == b[0] ==> !IdentifierBefore(a[0], b[0]))
    ensures ListBefore(a, b) <==>
            IdentifierBefore(a[0], b[0]) || (a[0] == b[0] && ListBefore(a[1..], b[1..]))
  {
    hide IdentifierBefore;
    if IdentifierBefore(a[0], b[0]) {
      assert a[..0] == b[..0];
      assert ListBeforeAt(a, b, 0);
    }
    if a[0] == b[0] {
      if k: nat :| ListBeforeAt(a[1..], b[1..], k) {
        assert a[..k + 1] == [a[0]] + a[1..][..k] && b[..k + 1] == [b[0]] + b[1..][..k];
        assert ListBeforeAt(a, b, k + 1);
      }
    }
    if k: nat :| ListBeforeAt(a, b, k) {
      if k > 0 {
        assert a[..k][0] == b[..k][0];
        assert a[1..][..k - 1] == a[..k][1..] && b[1..][..k - 1] == b[..k][1..];
        assert ListBeforeAt(a[1..], b[1..], k - 1);
      }
    }
  }

  /** Under the 64-bit bound the order of prerelease lists is the precedence of SemVer 2.0.0. */
  lemma PrecedenceIsSemVer(a: seq<string>, b: seq<string>)
    requires IdsBelow(a, TWO64) && IdsBelow(b, TWO64)
    ensures CompareIds(a, b) < 0 <==> exists k: nat :: SemVerBeforeAt(a, b, k)
  {
    hide Value;
    ListIsBefore(a, b);
    forall k: nat ensures ListBeforeAt(a, b, k) <==> SemVerBeforeAt(a, b, k) {}
  }

  // ---- the order of whole versions --------------------------------------------------

  /** Core numbers with zeros put after them, up to `n` of them. */
  function Padded(parts: seq<nat>, n: nat): seq<nat> {
    parts + seq(if n > |parts| then n - |parts| else 0, _ => 0)
  }

  /** The first core number that differs is smaller in `a`. */
  ghost predicate CoreBefore(a: seq<nat>, b: seq<nat>) {
    exists i | 0 <= i < |a| && i < |b| :: a[..i] == b[..i] && a[i] < b[i]
  }

  /** No revision comes before a revision, and revisions are in the order of their letters. */
  predicate RevisionBefore(a: string, b: string) { b != "" && (a == "" || a[0] < b[0]) }

  /** The precedence of versions: the core decides, then the revision, then a prerelease comes
      before its release, and prereleases are in the order of their identifiers. */
  ghost predicate Precedes(a: Version, b: Version) {
    var n := if |a.parts| > |b.parts| then |a.parts| else |b.parts|;
    var x, y := Padded(a.parts, n), Padded(b.parts, n);
    || CoreBefore(x, y)
    || (x == y && RevisionBefore(a.revision, b.revision))
    || (x == y && a.revision == b.revision && a.prerelease && !b.prerelease)
    || (x == y && a.revision == b.revision && a.prerelease && b.prerelease
        && ListBefore(a.prereleaseIds, b.prereleaseIds))
  }

  lemma PaddedAt(parts: seq<nat>, n: nat, i: nat)
    requires i < n && |parts| <= n
    ensures |Padded(parts, n)| == n && Padded(parts, n)[i] == PartAt(parts, i)
  {}

  lemma {:induction false} PartsAreCore(a: seq<nat>, b: seq<nat>, n: nat, i: nat)
    requires n == PaddedLength(a, b) && i <= n && |Padded(a, n)| == |Padded(b, n)| == n
    requires Padded(a, n)[..i] == Padded(b, n)[..i]
    ensures CompareParts(a, b, i) < 0 <==> CoreBefore(Padded(a, n), Padded(b, n))
    ensures CompareParts(a, b, i) == 0 <==> Padded(a, n) == Padded(b, n)
    decreases n - i
  {
    var x, y := Padded(a, n), Padded(b, n);
    if i == n {
      assert x[..n] == x && y[..n] == y;
    } else {
      PaddedAt(a, n, i);
      PaddedAt(b, n, i);
      hide Padded;
      if x[i] == y[i] {
        assert x[..i + 1] == x[..i] + [x[i]] && y[..i + 1] == y[..i] + [y[i]];
        PartsAreCore(a, b, n, i + 1);
      } else {
        FirstDifference(x, y, i);
      }
    }
  }

  lemma FirstDifference(x: seq<nat>, y: seq<nat>, i: nat)
    requires i < |x| == |y| && x[..i] == y[..i] && x[i] != y[i]
    ensures x != y && (CoreBefore(x, y) <==> x[i] < y[i])
  {
    if CoreBefore(x, y) {
      var j :| 0 <= j < |x| && x[..j] == y[..j] && x[j] < y[j];
      forall k | 0 <= k < i ensures x[k] == y[k] { assert x[..i][k] == y[..i][k]; }
      forall k | 0 <= k < j ensures x[k] == y[k] { assert x[..j][k] == y[..j][k]; }
    }
  }

  lemma RevisionIsBefore(a: string, b: string)
    requires |a| <= 1 && |b| <= 1 && a != b
    ensures CompareText(a, b) < 0 <==> RevisionBefore(a, b)
  {}

  /** `CompareVersions` answers less exactly for versions in precedence, whatever their numbers. */
  lemma LessExactly(x: string, y: string)
    requires Parsed(x).Some? && Parsed(y).Some?
    ensures Compare(Parsed(x).value, Parsed(y).value) < 0 <==> Precedes(Parsed(x).value, Parsed(y).value)
  {
    hide CompareParts, CompareText, CompareIds, ListBefore, CoreBefore, RevisionBefore;
    var a, b := Parsed(x).value, Parsed(y).value;
    var n := PaddedLength(a.parts, b.parts);
    assert |Padded(a.parts, n)| == |Padded(b.parts, n)| == n;
    assert Padded(a.parts, n)[..0] == Padded(b.parts, n)[..0];
    PartsAreCore(a.parts, b.parts, n, 0);
    if Padded(a.parts, n) == Padded(b.parts, n) { SameNotBefore(Padded(a.parts, n)); }
    RevisionShort(x);
    RevisionShort(y);
    if a.revision != b.revision { RevisionIsBefore(a.revision, b.revision); }
    NotBeforeItself(a.revision);
    ListIsBefore(a.prereleaseIds, b.prereleaseIds);
  }

  lemma SameNotBefore(x: seq<nat>)
    ensures !CoreBefore(x, x)
  {}

  lemma NotBeforeItself(r: string)
    ensures !RevisionBefore(r, r)
  {}

  lemma RevisionShort(x: string)
    requires Parsed(x).Some?
    ensures |Parsed(x).value.revision| <= 1
  {
    ParseSound(x);
  }
}
