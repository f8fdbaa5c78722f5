/** The parser of src/util/Json.cpp as it runs: a position and a value counter that the methods
    move.  Each method is proved against the function that says what it reads. */
module JsonParser {
  import opened Texts
  import opened Utf8
  import opened Json

  class Parser {
    const input: string
    const o: Options
    var pos: nat
    var values: nat

    ghost predicate Valid()
      reads this
    {
      pos <= |input|
    }

    /** The text that is still to be read. */
    ghost function Rest(): string
      requires Valid()
      reads this
    {
      input[pos..]
    }

    constructor (input: string, o: Options)
      ensures Valid() && this.input == input && this.o == o && pos == 0 && values == 0
    {
      this.input, this.o := input, o;
      pos, values := 0, 0;
    }

    method SkipWhitespace()
      requires Valid()
      modifies `pos
      ensures Valid() && pos >= old(pos)
      ensures Rest() == SkipWs(old(Rest()))
    {
      while pos < |input|
        invariant old(pos) <= pos <= |input|
        invariant SkipWs(input[pos..]) == SkipWs(old(Rest()))
      {
        var c := input[pos];
        if c != ' ' && c != '\t' && c != '\r' && c != '\n' { break; }
        assert input[pos..][1..] == input[pos + 1..];
        pos := pos + 1;
      }
    }

    method Consume(c: char) returns (ok: bool)
      requires Valid()
      modifies `pos
      ensures Valid() && pos >= old(pos)
      ensures ok == (old(Rest()) != "" && old(Rest())[0] == c)
      ensures Rest() == if ok then old(Rest())[1..] else old(Rest())
    {
      if pos >= |input| || input[pos] != c { return false; }
      pos := pos + 1;
      return true;
    }

    method ParseLiteral(literal: string, value: Value) returns (r: Option<Value>)
      requires Valid()
      modifies `pos
      ensures Valid()
      ensures var l := Literal(old(Rest()), literal, value);
              r == (if l.Token? then Some(l.value) else None) && (l.Token? ==> Rest() == l.rest)
    {
      if pos + |literal| > |input| || input[pos..pos + |literal|] != literal { return None; }
      assert Rest()[..|literal|] == literal;
      pos := pos + |literal|;
      return Some(value);
    }

    method ParseHex4() returns (r: Option<nat>)
      requires Valid()
      modifies `pos
      ensures Valid()
      ensures var h := Hex4(old(Rest()));
              r == (if h.Token? then Some(h.value) else None) && (h.Token? ==> Rest() == h.rest)
    {
      if |input| - pos < 4 { return None; }
      ghost var t := Rest();
      var value := 0;
      for i := 0 to 4
        invariant pos == old(pos) + i && AllHex(t[..i])
        invariant value == HexRun(t[..i])
      {
        var c := input[pos];
        pos := pos + 1;
        assert c == t[i];
        if !IsHex(c) {
          assert !AllHex(t[..4]) by { assert t[..4][i] == c; }
          return None;
        }
        HexRunStep(t, i);
        value := value * 16 + HexValue(c);
      }
      HexRunOfFour(t[..4]);
      return Some(value);
    }

    method ParseUnicodeEscape() returns (r: Option<string>)
      requires Valid()
      modifies `pos
      ensures Valid()
      ensures var u := UnicodeEscape(old(Rest()));
              r == (if u.Token? then Some(u.value) else None) && (u.Token? ==> Rest() == u.rest)
    {
      hide Hex4, Encode;
      var first := ParseHex4();
      if first.None? { return None; }
      var codepoint := first.value;
      if 0xD800 <= codepoint <= 0xDBFF {
        if |input| - pos < 6 || input[pos] != '\\' || input[pos + 1] != 'u' { return None; }
        ghost var t := Rest();
        pos := pos + 2;
        assert Rest() == t[2..];
        var second := ParseHex4();
        if second.None? { return None; }
        if second.value < 0xDC00 || second.value > 0xDFFF { return None; }
        codepoint := 0x10000 + (codepoint - 0xD800) * 0x400 + (second.value - 0xDC00);
      } else if 0xDC00 <= codepoint <= 0xDFFF {
        return None;
      }
      return Some(Encode(codepoint));
    }

    /** The character after a backslash. */
    method ParseEscape() returns (r: Option<string>)
      requires Valid()
      modifies `pos
      ensures Valid()
      ensures var e := Escape(old(Rest()));
              r == (if e.Token? then Some(e.value) else None) && (e.Token? ==> Rest() == e.rest)
    {
      hide UnicodeEscape;
      if pos >= |input| { return None; }
      var escaped := input[pos];
      ghost var t := Rest();
      pos := pos + 1;
      assert Rest() == t[1..];
      if escaped == 'u' {
        r := ParseUnicodeEscape();
        return;
      }
      if escaped == '"' || escaped == '\\' || escaped == '/' { return Some([escaped]); }
      if escaped == 'b' { return Some([8 as char]); }
      if escaped == 'f' { return Some([12 as char]); }
      if escaped == 'n' { return Some("\n"); }
      if escaped == 'r' { return Some("\r"); }
      if escaped == 't' { return Some("\t"); }
      return None;
    }

    /** One pass of the loop over a string body, for a character other than the closing quote. */
    method ParseCharacter() returns (r: Option<string>)
      requires Valid() && pos < |input|
      modifies `pos
      ensures Valid()
      ensures var c := Character(old(Rest()));
              r == (if c.Token? then Some(c.value) else None) && (c.Token? ==> Rest() == c.rest)
    {
      hide Escape, CharLength;
      ghost var t := Rest();
      var c := input[pos];
      if c < ' ' { return None; }
      if Byte(c) >= 0x80 {
        var n := CopyValidatedUtf8(input, pos);
        if n == 0 { return None; }
        r := Some(input[pos..pos + n]);
        assert t[..n] == input[pos..pos + n] && t[n..] == input[pos + n..];
        pos := pos + n;
        return;
      }
      pos := pos + 1;
      assert Rest() == t[1..];
      if c != '\\' { return Some([c]); }
      r := ParseEscape();
    }

    method ParseString() returns (r: Option<string>)
      requires Valid() && pos < |input|
      modifies `pos
      ensures Valid()
      ensures var s := String(old(Rest()));
              r == (if s.Token? then Some(s.value) else None) && (s.Token? ==> Rest() == s.rest)
    {
      hide Character;
      ghost var t := Rest();
      pos := pos + 1;
      assert Rest() == t[1..];
      var out := "";
      while pos < |input|
        invariant Valid()
        invariant Body(input[pos..], out) == String(t)
        decreases |input| - pos
      {
        if input[pos] == '"' {
          assert input[pos..][1..] == input[pos + 1..];
          pos := pos + 1;
          return Some(out);
        }
        label Before:
        var c := ParseCharacter();
        if c.None? { return None; }
        assert |Rest()| < |old@Before(Rest())|;
        out := out + c.value;
      }
      return None;
    }

    method SkipDigitRun()
      requires Valid()
      modifies `pos
      ensures Valid() && pos >= old(pos)
      ensures Rest() == SkipDigits(old(Rest()))
    {
      while pos < |input| && IsDigit(input[pos])
        invariant old(pos) <= pos <= |input|
        invariant SkipDigits(input[pos..]) == SkipDigits(old(Rest()))
      {
        assert input[pos..][1..] == input[pos + 1..];
        pos := pos + 1;
      }
    }

    method ParseWhole() returns (ok: bool)
      requires Valid()
      modifies `pos
      ensures Valid() && pos >= old(pos)
      ensures var w := Whole(old(Rest())); ok == w.Some? && (ok ==> Rest() == w.value)
    {
      var zero := Consume('0');
      if zero {
        return !(pos < |input| && IsDigit(input[pos]));
      }
      if pos >= |input| || input[pos] < '1' || input[pos] > '9' { return false; }
      SkipDigitRun();
      return true;
    }

    method ParseFraction() returns (ok: bool)
      requires Valid()
      modifies `pos
      ensures Valid() && pos >= old(pos)
      ensures var f := Fraction(old(Rest())); ok == f.Some? && (ok ==> Rest() == f.value)
    {
      var point := Consume('.');
      if point {
        if pos >= |input| || !IsDigit(input[pos]) { return false; }
        SkipDigitRun();
      }
      return true;
    }

    method ParseExponent() returns (ok: bool)
      requires Valid()
      modifies `pos
      ensures Valid() && pos >= old(pos)
      ensures var e := Exponent(old(Rest())); ok == e.Some? && (ok ==> Rest() == e.value)
    {
      ghost var t := Rest();
      if pos < |input| && (input[pos] == 'e' || input[pos] == 'E') {
        pos := pos + 1;
        assert Rest() == t[1..];
        if pos < |input| && (input[pos] == '+' || input[pos] == '-') {
          pos := pos + 1;
          assert Rest() == t[2..];
        }
        if pos >= |input| || !IsDigit(input[pos]) { return false; }
        SkipDigitRun();
      }
      return true;
    }

    method ParseNumber() returns (r: Option<Value>)
      requires Valid()
      modifies `pos
      ensures Valid()
      ensures var n := Number(old(Rest()));
              r == (if n.Token? then Some(n.value) else None) && (n.Token? ==> Rest() == n.rest)
    {
      hide Whole, Fraction, Exponent;
      ghost var t := Rest();
      var start := pos;
      var minus := Consume('-');
      var ok := ParseWhole();
      if !ok { return None; }
      ok := ParseFraction();
      if !ok { return None; }
      ok := ParseExponent();
      if !ok { return None; }
      assert input[start..pos] == t[..|t| - |Rest()|];
      return Some(Num(input[start..pos]));
    }

    method ParseValue(depth: nat) returns (r: Option<Value>)
      requires Valid()
      modifies this
      ensures Valid() && Agrees(r, PValue(old(Rest()), depth, old(values), o))
      decreases |input| - pos, 1
    {
      hide Scalar, PArray, PObject;
      if depth > o.maxDepth { return None; }
      values := values + 1;
      if values > o.maxValues { return None; }
      if pos >= |input| { return None; }
      if input[pos] == '{' {
        r := ParseObject(depth);
      } else if input[pos] == '[' {
        r := ParseArray(depth);
      } else {
        r := ParseScalar();
      }
    }

    /** What a method that reads a value returns and leaves behind, in terms of the function. */
    ghost predicate Agrees(r: Option<Value>, p: Parsed<Value>)
      requires Valid()
      reads this
    {
      && r == (if p.Good? then Some(p.value) else None)
      && (p.Good? ==> Rest() == p.rest && values == p.used)
    }

    method ParseScalar() returns (r: Option<Value>)
      requires Valid() && pos < |input|
      modifies `pos
      ensures Valid()
      ensures var s := Scalar(old(Rest()));
              r == (if s.Token? then Some(s.value) else None) && (s.Token? ==> Rest() == s.rest)
    {
      hide String, Number, Literal;
      var c := input[pos];
      if c == '"' {
        var s := ParseString();
        return if s.None? then None else Some(Str(s.value));
      }
      if c == 't' {
        r := ParseLiteral("true", Bool(true));
      } else if c == 'f' {
        r := ParseLiteral("false", Bool(false));
      } else if c == 'n' {
        r := ParseLiteral("null", Null);
      } else if c == '-' || IsDigit(c) {
        r := ParseNumber();
      } else {
        r := None;
      }
    }

    method ParseArray(depth: nat) returns (r: Option<Value>)
      requires Valid() && pos < |input|
      modifies this
      ensures Valid() && Agrees(r, PArray(old(Rest()), depth, old(values), o))
      decreases |input| - pos, 0
    {
      hide PValue, SkipWs;
      ghost var t := Rest();
      pos := pos + 1;
      assert Rest() == t[1..];
      SkipWhitespace();
      var items: seq<Value> := [];
      var closed := Consume(']');
      if closed { return Some(Arr(items)); }
      while true
        invariant Valid() && pos > old(pos)
        invariant PItems(Rest(), depth, values, o, items) == PArray(t, depth, old(values), o)
        decreases |input| - pos
      {
        var value := ParseValue(depth + 1);
        if value.None? { return None; }
        items := items + [value.value];
        SkipWhitespace();
        closed := Consume(']');
        if closed { return Some(Arr(items)); }
        var comma := Consume(',');
        if !comma { return None; }
        SkipWhitespace();
      }
    }

    method ParseObject(depth: nat) returns (r: Option<Value>)
      requires Valid() && pos < |input|
      modifies this
      ensures Valid() && Agrees(r, PObject(old(Rest()), depth, old(values), o))
      decreases |input| - pos, 0
    {
      hide PValue, Key, SkipWs;
      ghost var t := Rest();
      pos := pos + 1;
      assert Rest() == t[1..];
      SkipWhitespace();
      var members: map<string, Value> := map[];
      var closed := Consume('}');
      if closed { return Some(Obj(members)); }
      while true
        invariant Valid() && pos > old(pos)
        invariant PMembers(Rest(), depth, values, o, members) == PObject(t, depth, old(values), o)
        decreases |input| - pos
      {
        var key := ParseKey();
        if key.None? { return None; }
        var value := ParseValue(depth + 1);
        if value.None? { return None; }
        if key.value in members { return None; }
        members := members[key.value := value.value];
        SkipWhitespace();
        closed := Consume('}');
        if closed { return Some(Obj(members)); }
        var comma := Consume(',');
        if !comma { return None; }
        SkipWhitespace();
      }
    }

    method ParseKey() returns (r: Option<string>)
      requires Valid()
      modifies `pos
      ensures Valid()
      ensures var k := Key(old(Rest()));
              r == (if k.Token? then Some(k.value) else None) && (k.Token? ==> Rest() == k.rest)
    {
      hide String, SkipWs;
      if pos >= |input| || input[pos] != '"' { return None; }
      r := ParseString();
      if r.None? { return; }
      SkipWhitespace();
      var colon := Consume(':');
      if !colon { return None; }
      SkipWhitespace();
    }

    /** The whole parse; the counter ends at the number of values read. */
    method Run() returns (r: Option<Value>)
      requires pos == 0 && values == 0
      modifies this
      ensures Valid() && r == Parse(input, o)
      ensures r.Some? ==> values == PValue(SkipWs(StripBom(input)), 0, 0, o).used
    {
      hide PValue, SkipWs;
      if |input| > o.maxBytes { return None; }
      if |input| >= 3 && Byte(input[0]) == 0xEF && Byte(input[1]) == 0xBB && Byte(input[2]) == 0xBF {
        assert input[..3] == BOM;
        pos := 3;
      }
      assert Rest() == StripBom(input);
      SkipWhitespace();
      r := ParseValue(0);
      if r.None? { return; }
      SkipWhitespace();
      if pos != |input| { return None; }
    }
  }

  ghost function HexRun(h: string): nat
    requires AllHex(h)
  {
    if h == "" then 0 else HexRun(h[..|h| - 1]) * 16 + HexValue(h[|h| - 1])
  }

  lemma HexRunStep(t: string, i: nat)
    requires i < |t| && AllHex(t[..i]) && IsHex(t[i])
    ensures AllHex(t[..i + 1]) && HexRun(t[..i + 1]) == HexRun(t[..i]) * 16 + HexValue(t[i])
  {
    assert t[..i + 1][..i] == t[..i];
  }

  lemma HexRunOfFour(h: string)
    requires |h| == 4 && AllHex(h)
    ensures HexRun(h) == HexNumber(h)
  {
    assert h[..0] == "" && h[..4] == h;
    HexRunStep(h, 0);
    HexRunStep(h, 1);
    HexRunStep(h, 2);
    HexRunStep(h, 3);
  }
}
