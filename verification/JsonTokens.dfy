/** The tokens of the JSON parser are those of RFC 8259: blanks, numbers and strings. */
module JsonTokens {
  import opened Texts
  import opened Utf8
  import opened Json
  import opened JsonGrammar

  /** What may follow a value: a number must not run on into it. */
  predicate Follow(r: string) { r == "" || IsWs(r[0]) || r[0] == ',' || r[0] == ']' || r[0] == '}' }

  predicate NoDigit(r: string) { r == "" || !IsDigit(r[0]) }

  predicate NoWs(r: string) { r == "" || !IsWs(r[0]) }

  // ---- blanks and digits -------------------------------------------------------------

  lemma {:induction false} SkipWsSplit(t: string) returns (ws: string)
    ensures IsBlank(ws) && t == ws + SkipWs(t) && NoWs(SkipWs(t))
  {
    ws := "";
    if t != "" && IsWs(t[0]) {
      var more := SkipWsSplit(t[1..]);
      ws := [t[0]] + more;
    }
  }

  lemma {:induction false} SkipWsOver(ws: string, r: string)
    requires IsBlank(ws) && NoWs(r)
    ensures SkipWs(ws + r) == r
  {
    if ws == "" {
      assert ws + r == r;
    } else {
      SkipWsOver(ws[1..], r);
      assert (ws + r)[1..] == ws[1..] + r;
    }
  }

  lemma {:induction false} SkipDigitsSplit(t: string) returns (ds: string)
    ensures AllDigits(ds) && t == ds + SkipDigits(t) && NoDigit(SkipDigits(t))
  {
    ds := "";
    if t != "" && IsDigit(t[0]) {
      var more := SkipDigitsSplit(t[1..]);
      ds := [t[0]] + more;
    }
  }

  lemma {:induction false} SkipDigitsOver(ds: string, r: string)
    requires AllDigits(ds) && NoDigit(r)
    ensures SkipDigits(ds + r) == r
  {
    if ds == "" {
      assert ds + r == r;
    } else {
      SkipDigitsOver(ds[1..], r);
      assert (ds + r)[1..] == ds[1..] + r;
    }
  }

  lemma DigitsSplit(t: string) returns (ds: string)
    requires Digits(t).Some?
    ensures IsDigits(ds) && t == ds + Digits(t).value && NoDigit(Digits(t).value)
  {
    ds := SkipDigitsSplit(t);
  }

  lemma DigitsOver(ds: string, r: string)
    requires IsDigits(ds) && NoDigit(r)
    ensures Digits(ds + r) == Some(r)
  {
    SkipDigitsOver(ds, r);
  }

  // ---- numbers -----------------------------------------------------------------------

  lemma WholeSplit(t: string) returns (w: string)
    requires Whole(t).Some?
    ensures IsWhole(w) && t == w + Whole(t).value && NoDigit(Whole(t).value)
  {
    if t[0] == '0' {
      w := "0";
    } else {
      w := DigitsSplit(t);
    }
  }

  lemma WholeOver(w: string, r: string)
    requires IsWhole(w) && NoDigit(r)
    ensures Whole(w + r) == Some(r)
  {
    hide Digits;
    if w == "0" {
      assert (w + r)[1..] == r;
    } else {
      DigitsOver(w, r);
    }
  }

  lemma FractionSplit(t: string) returns (f: string)
    requires Fraction(t).Some?
    ensures IsFraction(f) && t == f + Fraction(t).value
  {
    f := "";
    if t != "" && t[0] == '.' {
      var ds := DigitsSplit(t[1..]);
      f := "." + ds;
      assert f[1..] == ds;
    }
  }

  lemma FractionOver(f: string, r: string)
    requires IsFraction(f) && NoDigit(r) && (r == "" || r[0] != '.')
    ensures Fraction(f + r) == Some(r) && NoDigit(f + r)
  {
    if f == "" {
      assert f + r == r;
    } else {
      assert (f + r)[1..] == f[1..] + r;
      DigitsOver(f[1..], r);
    }
  }

  lemma ExponentSplit(t: string) returns (e: string)
    requires Exponent(t).Some?
    ensures IsExponent(e) && t == e + Exponent(t).value
  {
    e := "";
    if t != "" && (t[0] == 'e' || t[0] == 'E') {
      if HasSign(t[1..]) {
        var ds := DigitsSplit(t[2..]);
        e := t[..2] + ds;
        assert e[2..] == ds && HasSign(e[1..]);
      } else {
        var ds := DigitsSplit(t[1..]);
        e := t[..1] + ds;
        assert e[1..] == ds && !HasSign(ds);
      }
    }
  }

  lemma ExponentOver(e: string, r: string)
    requires IsExponent(e) && Follow(r)
    ensures Exponent(e + r) == Some(r) && NoDigit(e + r) && (e + r == "" || (e + r)[0] != '.')
  {
    hide Digits;
    if e == "" {
      assert e + r == r;
    } else {
      var t := e + r;
      if HasSign(e[1..]) {
        assert t[2..] == e[2..] + r && HasSign(t[1..]);
        DigitsOver(e[2..], r);
      } else {
        assert t[1..] == e[1..] + r && !HasSign(t[1..]);
        DigitsOver(e[1..], r);
      }
    }
  }

  /** The parts of the number at the front of a text. */
  lemma NumberParts(t: string) returns (m: string, w: string, f: string, e: string)
    requires AfterNumber(t).Some?
    ensures IsMinus(m) && IsWhole(w) && IsFraction(f) && IsExponent(e)
    ensures t == NumberText(m, w, f, e) + AfterNumber(t).value
  {
    hide Whole, Fraction, Exponent, IsWhole, IsFraction, IsExponent;
    m := if t != "" && t[0] == '-' then "-" else "";
    var u := t[|m|..];
    w := WholeSplit(u);
    var v := Whole(u).value;
    f := FractionSplit(v);
    var x := Fraction(v).value;
    e := ExponentSplit(x);
    NumberRegroup(m, w, f, e, AfterNumber(t).value);
    assert t == m + u;
  }

  lemma NumberRegroup(m: string, w: string, f: string, e: string, r: string)
    ensures m + (w + (f + (e + r))) == NumberText(m, w, f, e) + r
  {}

  lemma NumberSplit(t: string) returns (n: Node)
    requires Number(t).Token?
    ensures WF(n) && t == Text(n) + Number(t).rest && Number(t).value == Eval(n)
    ensures n.NumberNode?
  {
    hide AfterNumber, NumberText, IsMinus, IsWhole, IsFraction, IsExponent;
    var m, w, f, e := NumberParts(t);
    n := NumberNode(m, w, f, e);
    var r := AfterNumber(t).value;
    assert t[..|t| - |r|] == NumberText(m, w, f, e);
  }

  lemma NumberOver(m: string, w: string, f: string, e: string, r: string)
    requires IsMinus(m) && IsWhole(w) && IsFraction(f) && IsExponent(e) && Follow(r)
    ensures Number(NumberText(m, w, f, e) + r) == Token(Num(NumberText(m, w, f, e)), r)
    ensures NumberStart(NumberText(m, w, f, e) + r)
  {
    var raw := NumberText(m, w, f, e);
    var t := raw + r;
    NumberFront(w, f + (e + r));
    NumberRegroup(m, w, f, e, r);
    hide Whole, Fraction, Exponent, IsWhole, IsFraction, IsExponent, NumberText;
    ExponentOver(e, r);
    FractionOver(f, e + r);
    WholeOver(w, f + (e + r));
    var u := w + (f + (e + r));
    assert t == m + u;
    assert (if t[0] == '-' then t[1..] else t) == u;
    assert AfterNumber(t) == Some(r);
    assert t[..|t| - |r|] == raw;
  }

  predicate NumberStart(t: string) { t != "" && (t[0] == '-' || IsDigit(t[0])) }

  lemma NumberFront(w: string, r: string)
    requires IsWhole(w)
    ensures w + r != "" && IsDigit((w + r)[0])
  {}

  // ---- strings -----------------------------------------------------------------------

  /** The digits that the parser takes are those of the grammar, with the same value. */
  lemma NibbleSame(c: char)
    ensures Nibble(c) < 16 <==> IsHex(c)
    ensures IsHex(c) ==> HexValue(c) == Nibble(c)
  {
    var d := if 'A' <= c <= 'F' then LowerChar(c) else c;
    if IsDigit(c) {
      DigitPlace(d, c as int - '0' as int);
    } else if IsHex(c) {
      DigitPlace(d, d as int - 'a' as int + 10);
    }
  }

  lemma DigitPlace(c: char, at: nat)
    requires at < 16 && c == if at < 10 then ('0' as int + at) as char else ('a' as int + at - 10) as char
    ensures Find(HEX_DIGITS, c, 0) == at
  {
    DigitsInPlace();
    hide HEX_DIGITS;
    FindIs(HEX_DIGITS, c, at);
  }

  lemma DigitsInPlace()
    ensures |HEX_DIGITS| == 16
    ensures forall i | 0 <= i < 16 :: HEX_DIGITS[i] == if i < 10 then ('0' as int + i) as char else ('a' as int + i - 10) as char
  {}

  lemma HexSame(h: string)
    ensures WFHex(h) <==> |h| == 4 && AllHex(h)
    ensures WFHex(h) ==> CodeUnit(h) == HexNumber(h) < 0x10000
  {
    hide Nibble, IsHex, HexValue;
    if |h| == 4 {
      NibbleSame(h[0]);
      NibbleSame(h[1]);
      NibbleSame(h[2]);
      NibbleSame(h[3]);
    }
  }

  lemma SurrogatesSame(high: nat, low: nat)
    requires IsHigh(high) && IsLow(low)
    ensures PairValue(high, low) == Surrogates(high, low)
  {
    assert high % 0x400 == high - 0xD800 && low % 0x400 == low - 0xDC00;
  }

  lemma ShortSame(e: char)
    ensures Unescaped(e) == if IsShort(e) then [ShortValue(e)] else ""
  {
    assert IsShort(e) <==> e == '"' || e == '\\' || e == '/' || e == 'b' || e == 'f' || e == 'n' || e == 'r' || e == 't';
  }

  lemma Hex4Over(h: string, r: string)
    requires WFHex(h)
    ensures Hex4(h + r) == Token(CodeUnit(h), r)
  {
    hide CodeUnit, WFHex, HexNumber, IsHex;
    HexSame(h);
    assert (h + r)[..4] == h && (h + r)[4..] == r;
  }

  lemma UnicodeEscapeSplit(t: string) returns (p: Piece)
    requires UnicodeEscape(t).Token?
    ensures WFPiece(p) && PieceMeaning(p) == UnicodeEscape(t).value
    ensures "\\u" + t == PieceText(p) + UnicodeEscape(t).rest
  {
    hide HexNumber, Encode, CodeUnit, WFHex, Surrogates, IsHex;
    var h := t[..4];
    HexSame(h);
    if IsHigh(HexNumber(h)) {
      var u := t[4..];
      assert u == "\\u" + (u[2..6] + u[6..]);
      assert u[2..][..4] == u[2..6] && u[2..][4..] == u[6..];
      HexSame(u[2..6]);
      SurrogatesSame(HexNumber(h), HexNumber(u[2..6]));
      p := Pair(h, u[2..6]);
    } else {
      p := Unicode(h);
    }
  }

  lemma UnicodeOver(h: string, r: string)
    requires WFPiece(Unicode(h))
    ensures UnicodeEscape(h + r) == Token(PieceMeaning(Unicode(h)), r)
  {
    hide HexNumber, Encode, Hex4, CodeUnit, WFHex;
    Hex4Over(h, r);
  }

  lemma PairOver(high: string, low: string, r: string)
    requires WFPiece(Pair(high, low))
    ensures UnicodeEscape(high + ("\\u" + low + r)) == Token(PieceMeaning(Pair(high, low)), r)
  {
    hide HexNumber, Encode, Hex4, SecondHalf, CodeUnit, WFHex, Surrogates;
    SecondHalfOver(CodeUnit(high), low, r);
    Hex4Over(high, "\\u" + low + r);
  }

  /** The text of a Unicode escape after its backslash and letter. */
  function UnicodeTail(p: Piece): string
    requires p.Unicode? || p.Pair?
  {
    match p
    case Unicode(h) => h
    case Pair(high, low) => high + ("\\u" + low)
  }

  lemma UnicodeTailText(p: Piece, r: string)
    requires p.Unicode? || p.Pair?
    ensures PieceText(p) + r == "\\u" + (UnicodeTail(p) + r)
  {}

  lemma UnicodeEscapeOver(p: Piece, r: string)
    requires (p.Unicode? || p.Pair?) && WFPiece(p)
    ensures UnicodeEscape(UnicodeTail(p) + r) == Token(PieceMeaning(p), r)
  {
    hide UnicodeEscape, WFPiece, PieceMeaning;
    match p
    case Unicode(h) =>
      UnicodeOver(h, r);
    case Pair(high, low) =>
      PairOver(high, low, r);
      assert high + ("\\u" + low) + r == high + ("\\u" + low + r);
  }

  lemma SecondHalfOver(high: nat, low: string, r: string)
    requires IsHigh(high) && WFHex(low) && IsLow(CodeUnit(low))
    ensures IsScalar(Surrogates(high, CodeUnit(low)))
    ensures SecondHalf(high, "\\u" + low + r) == Token(Encode(Surrogates(high, CodeUnit(low))), r)
  {
    hide HexNumber, Encode, Hex4, CodeUnit, WFHex;
    HexSame(low);
    SurrogatesSame(high, CodeUnit(low));
    Hex4Over(low, r);
    assert ("\\u" + low + r)[2..] == low + r;
  }

  lemma CharacterSplit(t: string) returns (p: Piece)
    requires t != "" && t[0] != '"' && Character(t).Token?
    ensures WFPiece(p) && PieceMeaning(p) == Character(t).value
    ensures t == PieceText(p) + Character(t).rest
  {
    hide UnicodeEscape;
    if Byte(t[0]) >= 0x80 {
      p := PlainFront(t);
    } else if t[0] != '\\' {
      OneByte(t[0]);
      p := Plain([t[0]]);
    } else if t[1] == 'u' {
      p := UnicodeEscapeSplit(t[2..]);
      assert t == "\\u" + t[2..] && t[1..][1..] == t[2..];
    } else {
      p := Short(t[1]);
      ShortSame(t[1]);
      assert t[1..][1..] == t[2..];
    }
  }

  lemma OneByte(c: char)
    requires Byte(c) < 0x80
    ensures CharLength([c]) == 1
  {}

  lemma PlainFront(t: string) returns (p: Piece)
    requires t != "" && Byte(t[0]) >= 0x80 && CharLength(t) > 0
    ensures p == Plain(t[..CharLength(t)]) && WFPiece(p)
  {
    p := Plain(t[..CharLength(t)]);
  }

  lemma CharacterOver(p: Piece, r: string)
    requires WFPiece(p)
    ensures var t := PieceText(p) + r;
            t != "" && t[0] != '"' && Character(t) == Token(PieceMeaning(p), r)
  {
    hide UnicodeEscape, UnicodeTail, CharLength;
    var t := PieceText(p) + r;
    if p.Plain? {
      PlainOver(p.c, r);
    } else if p.Short? {
      ShortSame(p.e);
      assert t[1..][1..] == r;
    } else {
      UnicodeEscapeOver(p, r);
      UnicodeTailText(p, r);
      assert t[1..][1..] == UnicodeTail(p) + r;
    }
  }

  lemma PlainOver(c: string, r: string)
    requires WFPlain(c)
    ensures c + r != "" && (c + r)[0] != '"' && Character(c + r) == Token(c, r)
  {
    hide Escape;
    PlainLength(c);
    CharLengthConcat(c, r);
    var t := c + r;
    assert t[..|c|] == c && t[|c|..] == r && t[0] == c[0];
    if Byte(c[0]) < 0x80 { assert [t[0]] == c; }
  }

  lemma PlainLength(c: string)
    requires WFPlain(c)
    ensures Byte(c[0]) < 0x80 ==> |c| == 1
  {}

  lemma MeaningCons(p: Piece, ps: seq<Piece>)
    requires WFPiece(p) && WFPieces(ps)
    ensures WFPieces([p] + ps) && Meaning([p] + ps) == PieceMeaning(p) + Meaning(ps)
    ensures PiecesText([p] + ps) == PieceText(p) + PiecesText(ps)
  {
    hide PieceMeaning, PieceText;
    assert ([p] + ps)[1..] == ps;
  }

  lemma {:induction false} BodySplit(t: string, out: string) returns (ps: seq<Piece>)
    requires Body(t, out).Token?
    ensures WFPieces(ps) && Body(t, out).value == out + Meaning(ps)
    ensures t == PiecesText(ps) + "\"" + Body(t, out).rest
    decreases |t|
  {
    hide Character, PieceMeaning, PieceText, WFPiece;
    if t[0] == '"' {
      ps := [];
    } else {
      var c := Character(t);
      var p := CharacterSplit(t);
      var more := BodySplit(c.rest, out + c.value);
      ps := [p] + more;
      MeaningCons(p, more);
    }
  }

  lemma {:induction false} BodyOver(ps: seq<Piece>, r: string, out: string)
    requires WFPieces(ps)
    ensures Body(PiecesText(ps) + "\"" + r, out) == Token(out + Meaning(ps), r)
  {
    hide Character, PieceMeaning, PieceText, WFPiece;
    var t := PiecesText(ps) + "\"" + r;
    if ps == [] {
      assert t[1..] == r && out + "" == out;
    } else {
      var u := PiecesText(ps[1..]) + "\"" + r;
      CharacterOver(ps[0], u);
      assert t == PieceText(ps[0]) + u;
      BodyOver(ps[1..], r, out + PieceMeaning(ps[0]));
      assert out + PieceMeaning(ps[0]) + Meaning(ps[1..]) == out + Meaning(ps);
    }
  }

  lemma StringSplit(t: string) returns (ps: seq<Piece>)
    requires t != "" && t[0] == '"' && String(t).Token?
    ensures WFPieces(ps) && String(t).value == Meaning(ps) && t == Quoted(ps) + String(t).rest
  {
    hide Body, Meaning, PiecesText;
    ps := BodySplit(t[1..], "");
  }

  lemma StringOver(ps: seq<Piece>, r: string)
    requires WFPieces(ps)
    ensures Quoted(ps) + r != "" && (Quoted(ps) + r)[0] == '"'
    ensures String(Quoted(ps) + r) == Token(Meaning(ps), r)
  {
    hide Body, Meaning, PiecesText;
    BodyOver(ps, r, "");
    assert (Quoted(ps) + r)[1..] == PiecesText(ps) + "\"" + r;
    assert "" + Meaning(ps) == Meaning(ps);
  }

  // ---- what a string means is UTF-8 ----------------------------------------------------

  lemma ScalarWellFormed(cp: nat)
    requires IsScalar(cp)
    ensures WellFormed(Encode(cp))
  {
    hide CharLength, Encode;
    EncodeExact(cp);
    WellFormedChar(Encode(cp));
  }

  lemma PieceWellFormed(p: Piece)
    requires WFPiece(p)
    ensures WellFormed(PieceMeaning(p))
  {
    hide CharLength, Encode, CodeUnit, WFHex, WellFormed;
    match p
    case Plain(c) => WellFormedChar(c);
    case Short(e) => OneByte(Unescaped(e)[0]); WellFormedChar(Unescaped(e));
    case Unicode(h) => ScalarWellFormed(CodeUnit(h));
    case Pair(high, low) => ScalarWellFormed(Surrogates(CodeUnit(high), CodeUnit(low)));
  }

  /** Whatever its escapes, a string of the grammar means well-formed UTF-8. */
  lemma {:induction false} MeaningWellFormed(ps: seq<Piece>)
    requires WFPieces(ps)
    ensures WellFormed(Meaning(ps))
  {
    hide WFPiece, PieceMeaning, WellFormed;
    if ps == [] {
      EmptyWellFormed();
    } else {
      PieceWellFormed(ps[0]);
      MeaningWellFormed(ps[1..]);
      WellFormedConcat(PieceMeaning(ps[0]), Meaning(ps[1..]));
    }
  }
}
