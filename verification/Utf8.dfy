/** UTF-8 as section 4 of RFC 3629 defines it; a `char` of a text stands for one byte. */
module Utf8 {
  import opened Texts

  function Byte(c: char): nat { c as nat }

  predicate IsTail(c: char) { 0x80 <= Byte(c) <= 0xBF }

  predicate InRange(c: char, lo: nat, hi: nat) { lo <= Byte(c) <= hi }

  /** The length of the UTF-8 character at the front of `t` by the syntax of RFC 3629, or 0. */
  function CharLength(t: string): (n: nat)
    ensures n <= |t| && n <= 4
  {
    if |t| >= 1 && Byte(t[0]) <= 0x7F then 1
    else if |t| >= 2 && InRange(t[0], 0xC2, 0xDF) && IsTail(t[1]) then 2
    else if |t| >= 3 && ThreeByteStart(t[0], t[1]) && IsTail(t[2]) then 3
    else if |t| >= 4 && FourByteStart(t[0], t[1]) && IsTail(t[2]) && IsTail(t[3]) then 4
    else 0
  }

  predicate ThreeByteStart(a: char, b: char) {
    || (Byte(a) == 0xE0 && InRange(b, 0xA0, 0xBF))
    || (InRange(a, 0xE1, 0xEC) && IsTail(b))
    || (Byte(a) == 0xED && InRange(b, 0x80, 0x9F))
    || (InRange(a, 0xEE, 0xEF) && IsTail(b))
  }

  predicate FourByteStart(a: char, b: char) {
    || (Byte(a) == 0xF0 && InRange(b, 0x90, 0xBF))
    || (InRange(a, 0xF1, 0xF3) && IsTail(b))
    || (Byte(a) == 0xF4 && InRange(b, 0x80, 0x8F))
  }

  predicate WellFormed(s: string)
    decreases |s|
  {
    s == "" || (CharLength(s) > 0 && WellFormed(s[CharLength(s)..]))
  }

  // ---- encoding a code point: AppendUtf8 in src/util/Json.cpp -------------------------

  /** A Unicode scalar value. */
  predicate IsScalar(cp: nat) { cp <= 0x10FFFF && !(0xD800 <= cp <= 0xDFFF) }

  function Encode(cp: nat): (r: string)
    requires IsScalar(cp)
  {
    var q := cp / 64;
    if cp <= 0x7F then [cp as char]
    else if cp <= 0x7FF then Two(q, cp % 64)
    else if cp <= 0xFFFF then Three(q / 64, q % 64, cp % 64)
    else Four(q / 64 / 64, q / 64 % 64, q % 64, cp % 64)
  }

  function Two(a: nat, b: nat): string
    requires a < 32 && b < 64
  {
    [(0xC0 + a) as char, (0x80 + b) as char]
  }

  function Three(a: nat, b: nat, c: nat): string
    requires a < 16 && b < 64 && c < 64
  {
    [(0xE0 + a) as char, (0x80 + b) as char, (0x80 + c) as char]
  }

  function Four(a: nat, b: nat, c: nat, d: nat): string
    requires a < 8 && b < 64 && c < 64 && d < 64
  {
    [(0xF0 + a) as char, (0x80 + b) as char, (0x80 + c) as char, (0x80 + d) as char]
  }

  /** The number that a well-formed character encodes (section 3 of RFC 3629). */
  function Decode(t: string): nat
    requires CharLength(t) > 0
  {
    match CharLength(t)
    case 1 => Byte(t[0])
    case 2 => Value2(Byte(t[0]) - 0xC0, Byte(t[1]) - 0x80)
    case 3 => Value3(Byte(t[0]) - 0xE0, Byte(t[1]) - 0x80, Byte(t[2]) - 0x80)
    case _ => Value4(Byte(t[0]) - 0xF0, Byte(t[1]) - 0x80, Byte(t[2]) - 0x80, Byte(t[3]) - 0x80)
  }

  function Value2(a: nat, b: nat): nat { a * 64 + b }

  function Value3(a: nat, b: nat, c: nat): nat { Value2(a, b) * 64 + c }

  function Value4(a: nat, b: nat, c: nat, d: nat): nat { Value3(a, b, c) * 64 + d }

  lemma TwoExact(a: nat, b: nat)
    requires 2 <= a < 32 && b < 64
    ensures CharLength(Two(a, b)) == 2 && Decode(Two(a, b)) == Value2(a, b)
  {}

  lemma ThreeExact(a: nat, b: nat, c: nat)
    requires a < 16 && b < 64 && c < 64 && Value3(a, b, c) >= 0x800
    requires !(0xD800 <= Value3(a, b, c) <= 0xDFFF)
    ensures CharLength(Three(a, b, c)) == 3 && Decode(Three(a, b, c)) == Value3(a, b, c)
  {}

  lemma FourExact(a: nat, b: nat, c: nat, d: nat)
    requires a < 8 && b < 64 && c < 64 && d < 64 && 0x10000 <= Value4(a, b, c, d) <= 0x10FFFF
    ensures CharLength(Four(a, b, c, d)) == 4 && Decode(Four(a, b, c, d)) == Value4(a, b, c, d)
  {}

  /** Encoding gives one well-formed character, and decoding gives the scalar value back. */
  lemma EncodeExact(cp: nat)
    requires IsScalar(cp)
    ensures |Encode(cp)| > 0 && CharLength(Encode(cp)) == |Encode(cp)|
    ensures Decode(Encode(cp)) == cp
  {
    hide CharLength, Decode;
    var q := cp / 64;
    if cp <= 0x7F {
      OneExact(cp);
    } else if cp <= 0x7FF {
      TwoExact(q, cp % 64);
    } else if cp <= 0xFFFF {
      ThreeExact(q / 64, q % 64, cp % 64);
    } else {
      FourExact(q / 64 / 64, q / 64 % 64, q % 64, cp % 64);
    }
  }

  lemma OneExact(a: nat)
    requires a <= 0x7F
    ensures CharLength([a as char]) == 1 && Decode([a as char]) == a
  {}

  lemma QuotientOf(n: nat, a: nat, b: nat)
    requires n == a * 64 + b && b < 64
    ensures n / 64 == a && n % 64 == b
  {}

  /** The other way: a well-formed character is the encoding of the scalar value it decodes to. */
  lemma DecodeExact(t: string)
    requires CharLength(t) > 0
    ensures IsScalar(Decode(t)) && Encode(Decode(t)) == t[..CharLength(t)]
  {
    var cp := Decode(t);
    if CharLength(t) == 2 {
      QuotientOf(cp, Byte(t[0]) - 0xC0, Byte(t[1]) - 0x80);
    } else if CharLength(t) == 3 {
      ThreeBytesOf(t);
    } else if CharLength(t) == 4 {
      FourBytesOf(t);
    }
  }

  lemma ThreeBytesOf(t: string)
    requires CharLength(t) == 3
    ensures IsScalar(Decode(t)) && Encode(Decode(t)) == t[..3]
  {
    var a, b, c := Byte(t[0]) - 0xE0, Byte(t[1]) - 0x80, Byte(t[2]) - 0x80;
    QuotientOf(Value3(a, b, c), Value2(a, b), c);
    QuotientOf(Value2(a, b), a, b);
    assert 0x800 <= Value3(a, b, c) <= 0xFFFF;
    assert Three(a, b, c) == t[..3];
  }

  lemma FourBytesOf(t: string)
    requires CharLength(t) == 4
    ensures IsScalar(Decode(t)) && Encode(Decode(t)) == t[..4]
  {
    var a, b, c, d := Byte(t[0]) - 0xF0, Byte(t[1]) - 0x80, Byte(t[2]) - 0x80, Byte(t[3]) - 0x80;
    QuotientOf(Value4(a, b, c, d), Value3(a, b, c), d);
    QuotientOf(Value3(a, b, c), Value2(a, b), c);
    QuotientOf(Value2(a, b), a, b);
    assert 0x10000 <= Value4(a, b, c, d) <= 0x10FFFF;
    assert Four(a, b, c, d) == t[..4];
  }

  // ---- well-formed texts ---------------------------------------------------------------

  lemma CharLengthConcat(a: string, b: string)
    requires CharLength(a) > 0
    ensures CharLength(a + b) == CharLength(a)
  {}

  lemma {:induction false} WellFormedConcat(a: string, b: string)
    requires WellFormed(a) && WellFormed(b)
    ensures WellFormed(a + b)
    decreases |a|
  {
    hide CharLength;
    if a == "" {
      assert a + b == b;
    } else {
      var n := CharLength(a);
      CharLengthConcat(a, b);
      WellFormedConcat(a[n..], b);
      assert (a + b)[n..] == a[n..] + b;
    }
  }

  lemma EmptyWellFormed()
    ensures WellFormed("")
  {}

  lemma WellFormedChar(t: string)
    requires CharLength(t) == |t| && t != ""
    ensures WellFormed(t)
  {
    assert t[|t|..] == "";
  }

  lemma {:induction false} AsciiWellFormed(s: string)
    requires forall i | 0 <= i < |s| :: Byte(s[i]) < 0x80
    ensures WellFormed(s)
    decreases |s|
  {
    if s != "" { AsciiWellFormed(s[1..]); }
  }

  // ---- CopyValidatedUtf8 in src/util/Json.cpp ---------------------------------------------

  /** How many continuation bytes a first byte announces. */
  function Announced(lead: char): nat {
    if InRange(lead, 0xC2, 0xDF) then 1 else if InRange(lead, 0xE0, 0xEF) then 2
    else if InRange(lead, 0xF0, 0xF4) then 3 else 0
  }

  lemma MultiByteShape(t: string)
    requires t != "" && Byte(t[0]) >= 0x80
    ensures CharLength(t) == 0 || CharLength(t) == Announced(t[0]) + 1
    ensures CharLength(t) > 1 ==> forall k | 1 <= k < CharLength(t) :: IsTail(t[k])
    ensures Announced(t[0]) == 0 ==> CharLength(t) == 0
  {}

  /** The check as the parser runs it: it accumulates the code point from the continuation bytes
      and looks at its range afterwards.  It accepts exactly the multi-byte characters. */
  method CopyValidatedUtf8(input: string, start: nat) returns (length: nat)
    requires start < |input| && Byte(input[start]) >= 0x80
    ensures length == CharLength(input[start..])
  {
    hide CharLength, Accumulated;
    ghost var t := input[start..];
    MultiByteShape(t);
    var lead := Byte(input[start]);
    var codepoint, continuation, minimum;
    if 0xC2 <= lead <= 0xDF {
      continuation, codepoint, minimum := 1, lead % 0x20, 0x80;
    } else if 0xE0 <= lead <= 0xEF {
      continuation, codepoint, minimum := 2, lead % 0x10, 0x800;
    } else if 0xF0 <= lead <= 0xF4 {
      continuation, codepoint, minimum := 3, lead % 0x08, 0x10000;
    } else {
      return 0;
    }
    if |input| - (start + 1) < continuation { return 0; }
    ghost var first := codepoint;
    AccumulatedStep(first, t, 0);
    var i := 0;
    while i < continuation
      invariant 0 <= i <= continuation
      invariant forall k | 1 <= k <= i :: IsTail(t[k])
      invariant codepoint == Accumulated(first, t, i)
    {
      var c := input[start + 1 + i];
      assert c == t[i + 1];
      AccumulatedStep(first, t, i);
      if !IsTail(c) { return 0; }
      codepoint := codepoint * 64 + Byte(c) % 64;
      i := i + 1;
    }
    Classified(t, continuation, first, minimum);
    if codepoint < minimum || codepoint > 0x10FFFF || 0xD800 <= codepoint <= 0xDFFF { return 0; }
    return continuation + 1;
  }

  ghost function Accumulated(first: nat, t: string, i: nat): nat
    requires i < |t|
  {
    if i == 0 then first else Accumulated(first, t, i - 1) * 64 + Byte(t[i]) % 64
  }

  lemma AccumulatedStep(first: nat, t: string, i: nat)
    requires i + 1 < |t|
    ensures Accumulated(first, t, 0) == first
    ensures Accumulated(first, t, i + 1) == Accumulated(first, t, i) * 64 + Byte(t[i + 1]) % 64
  {}

  /** The range check on the accumulated code point is the table of second bytes in RFC 3629. */
  lemma Classified(t: string, n: nat, first: nat, minimum: nat)
    requires 1 <= n <= 3 && |t| > n && forall k | 1 <= k <= n :: IsTail(t[k])
    requires match n
             case 1 => InRange(t[0], 0xC2, 0xDF) && first == Byte(t[0]) - 0xC0 && minimum == 0x80
             case 2 => InRange(t[0], 0xE0, 0xEF) && first == Byte(t[0]) - 0xE0 && minimum == 0x800
             case _ => InRange(t[0], 0xF0, 0xF4) && first == Byte(t[0]) - 0xF0 && minimum == 0x10000
    ensures var cp := Accumulated(first, t, n);
            CharLength(t) == if minimum <= cp <= 0x10FFFF && !(0xD800 <= cp <= 0xDFFF) then n + 1 else 0
  {
    var m1 := Byte(t[1]) - 0x80;
    assert Accumulated(first, t, 1) == first * 64 + m1;
    if n == 2 {
      assert Accumulated(first, t, 2) == Value3(first, m1, Byte(t[2]) - 0x80);
    } else if n == 3 {
      assert Accumulated(first, t, 2) == Value3(first, m1, Byte(t[2]) - 0x80);
      assert Accumulated(first, t, 3) == Value4(first, m1, Byte(t[2]) - 0x80, Byte(t[3]) - 0x80);
    }
  }
}
