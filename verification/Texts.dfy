/** Text helpers shared by the other modules: options, ASCII classes, ASCII case folding,
    decimal numerals and lists joined or split at a separator.  A C++ `std::string` or
    `std::wstring` is a Dafny `string`, one `char` for each code unit. */
module Texts {

  datatype Option<+T> = None | Some(value: T)

  const TWO64: nat := 0x1_0000_0000_0000_0000
  const TWO32: nat := 0x1_0000_0000

  // ---- ASCII ----------------------------------------------------------------

  predicate IsDigit(c: char) { '0' <= c <= '9' }

  predicate AllDigits(s: string) { forall i | 0 <= i < |s| :: IsDigit(s[i]) }

  function LowerChar(c: char): char {
    if 'A' <= c <= 'Z' then (c as int + 32) as char else c
  }

  /** ASCII case folding: the comparison `IEqualsAscii` is equality of folded texts. */
  function Lower(s: string): (r: string)
    ensures |r| == |s|
    ensures forall i | 0 <= i < |s| :: r[i] == LowerChar(s[i])
  {
    seq(|s|, i requires 0 <= i < |s| => LowerChar(s[i]))
  }

  /** The paths of images are compared without regard to ASCII case. */
  predicate SameImage(a: string, b: string) { Lower(a) == Lower(b) }

  /** A hash in lower-case hexadecimal. */
  predicate IsSha256(s: string) {
    |s| == 64 && forall i | 0 <= i < |s| :: IsDigit(s[i]) || 'a' <= s[i] <= 'f'
  }

  // ---- decimal numerals -----------------------------------------------------

  function DigitValue(c: char): (d: nat)
    requires IsDigit(c)
    ensures d < 10
  {
    c as int - '0' as int
  }

  function DigitChar(d: nat): (c: char)
    requires d < 10
    ensures IsDigit(c) && DigitValue(c) == d
  {
    ('0' as int + d) as char
  }

  /** The value of a digit string, as `std::from_chars` computes it before its range check. */
  function Value(s: string): nat
    requires AllDigits(s)
  {
    if s == "" then 0 else Value(s[..|s| - 1]) * 10 + DigitValue(s[|s| - 1])
  }

  /** `std::to_string` of an unsigned number. */
  function Decimal(n: nat): (s: string)
    ensures |s| > 0 && AllDigits(s)
  {
    if n < 10 then [DigitChar(n)] else Decimal(n / 10) + [DigitChar(n % 10)]
  }

  predicate Canonical(s: string) {
    |s| > 0 && AllDigits(s) && (|s| == 1 || s[0] != '0')
  }

  lemma {:induction false} DecimalCanonical(n: nat)
    ensures Canonical(Decimal(n))
    ensures Decimal(n)[0] == '0' <==> n == 0
  {
    if n >= 10 { DecimalCanonical(n / 10); }
  }

  lemma {:induction false} ValueOfDecimal(n: nat)
    ensures Value(Decimal(n)) == n
  {
    if n < 10 {
      var s := [DigitChar(n)];
      assert s[..0] == "";
    } else {
      ValueOfDecimal(n / 10);
      var s := Decimal(n / 10) + [DigitChar(n % 10)];
      assert s[..|s| - 1] == Decimal(n / 10);
    }
  }

  lemma {:induction false} CanonicalPositive(s: string)
    requires Canonical(s) && s != "0"
    ensures Value(s) > 0
  {
    if |s| == 1 {
      assert s[..0] == "" && s == [s[0]];
    } else {
      CanonicalPositive(s[..|s| - 1]);
    }
  }

  lemma {:induction false} DecimalOfValue(s: string)
    requires Canonical(s)
    ensures Decimal(Value(s)) == s
  {
    var front, last := s[..|s| - 1], s[|s| - 1];
    assert s == front + [last];
    if |s| == 1 {
      assert front == "";
    } else {
      CanonicalPositive(front);
      DecimalOfValue(front);
    }
  }

  // ---- putting texts together ---------------------------------------------------

  lemma Regroup3(a: string, b: string, c: string)
    ensures a + (b + c) == a + b + c
  {}

  lemma Regroup4(a: string, b: string, c: string, d: string)
    ensures a + (b + c + d) == a + b + c + d
    ensures a + (b + (c + d)) == a + b + c + d
  {}

  // ---- joining and splitting ------------------------------------------------

  function Join(parts: seq<string>, sep: char): string {
    if parts == [] then "" else if |parts| == 1 then parts[0]
    else parts[0] + [sep] + Join(parts[1..], sep)
  }

  /** Where `std::string::find(c, pos)` stops; the length when there is no `c`. */
  function Find(s: string, c: char, pos: nat): (r: nat)
    requires pos <= |s|
    ensures pos <= r <= |s|
    ensures forall i | pos <= i < r :: s[i] != c
    ensures r < |s| ==> s[r] == c
    decreases |s| - pos
  {
    if pos == |s| || s[pos] == c then pos else Find(s, c, pos + 1)
  }

  lemma FindIs(s: string, c: char, at: nat)
    requires at <= |s| && (at < |s| ==> s[at] == c) && forall i | 0 <= i < at :: s[i] != c
    ensures Find(s, c, 0) == at
  {
    var r := Find(s, c, 0);
    assert r < |s| ==> s[r] == c;
  }

  lemma FindShift(s: string, c: char, pos: nat)
    requires pos <= |s|
    ensures Find(s, c, pos) == pos + Find(s[pos..], c, 0)
  {
    FindIs(s[pos..], c, Find(s, c, pos) - pos);
  }

  lemma SliceShift(s: string, pos: nat, end: nat)
    requires pos <= end <= |s|
    ensures s[pos..][..end - pos] == s[pos..end]
    ensures end < |s| ==> s[pos..][end - pos + 1..] == s[end + 1..]
    ensures end == |s| ==> s[pos..end] == s[pos..] && s[end..] == ""
  {}

  function Split(s: string, c: char): (r: seq<string>)
    ensures |r| >= 1
    decreases |s|
  {
    var e := Find(s, c, 0);
    if e == |s| then [s] else [s[..e]] + Split(s[e + 1..], c)
  }

  lemma JoinCons(head: string, tail: seq<string>, c: char)
    requires tail != []
    ensures Join([head] + tail, c) == head + [c] + Join(tail, c)
  {
    assert ([head] + tail)[1..] == tail;
  }

  lemma {:induction false} JoinOfSplit(s: string, c: char)
    ensures Join(Split(s, c), c) == s
    decreases |s|
  {
    var e := Find(s, c, 0);
    if e < |s| {
      JoinOfSplit(s[e + 1..], c);
      JoinCons(s[..e], Split(s[e + 1..], c), c);
      assert s == s[..e] + [c] + s[e + 1..];
    }
  }

  lemma FindConcat(head: string, c: char, tail: string)
    requires c !in head
    ensures Find(head + [c] + tail, c, 0) == |head|
  {
    var s := head + [c] + tail;
    var e := Find(s, c, 0);
    assert s[|head|] == c;
    assert forall i | 0 <= i < |head| :: s[i] == head[i];
  }

  lemma {:induction false} SplitOfJoin(parts: seq<string>, c: char)
    requires |parts| >= 1 && forall i | 0 <= i < |parts| :: c !in parts[i]
    ensures Split(Join(parts, c), c) == parts
    decreases |parts|
  {
    if |parts| == 1 {
      assert parts == [parts[0]];
    } else {
      var head, tail := parts[0], Join(parts[1..], c);
      FindConcat(head, c, tail);
      var s := head + [c] + tail;
      assert s[..|head|] == head && s[|head| + 1..] == tail;
      SplitOfJoin(parts[1..], c);
      assert parts == [head] + parts[1..];
    }
  }
}
