/** The strict JSON parser of src/util/Json.cpp.  The functions say what the parser does with the
    text that is still to be read; `JsonParser` is the parser as the source runs it, over a
    position and a value counter.  Error messages and offsets are not modelled. */
module Json {
  import opened Texts
  import opened Utf8

  datatype Value =
    | Null
    | Bool(b: bool)
    | Num(raw: string)
    | Str(s: string)
    | Arr(items: seq<Value>)
    | Obj(members: map<string, Value>)

  datatype Options = Options(maxBytes: nat, maxDepth: nat, maxValues: nat)

  /** The outcome of reading one token: its value and the text after it. */
  datatype Lexed<+T> = NoToken | Token(value: T, rest: string)

  /** The outcome of reading a value: also the value counter afterwards. */
  datatype Parsed<+T> = Bad | Good(value: T, rest: string, used: nat)

  // ---- characters ------------------------------------------------------------------

  predicate IsWs(c: char) { c == ' ' || c == '\t' || c == '\r' || c == '\n' }

  predicate IsHex(c: char) { IsDigit(c) || 'a' <= c <= 'f' || 'A' <= c <= 'F' }

  function HexValue(c: char): (d: nat)
    requires IsHex(c)
    ensures d < 16
  {
    if IsDigit(c) then c as int - '0' as int
    else if 'a' <= c <= 'f' then c as int - 'a' as int + 10
    else c as int - 'A' as int + 10
  }

  predicate AllHex(h: string) { forall i | 0 <= i < |h| :: IsHex(h[i]) }

  function HexNumber(h: string): (n: nat)
    requires |h| == 4 && AllHex(h)
    ensures n < 0x10000
  {
    ((HexValue(h[0]) * 16 + HexValue(h[1])) * 16 + HexValue(h[2])) * 16 + HexValue(h[3])
  }

  predicate IsHigh(cp: nat) { 0xD800 <= cp <= 0xDBFF }

  predicate IsLow(cp: nat) { 0xDC00 <= cp <= 0xDFFF }

  function PairValue(high: nat, low: nat): (cp: nat)
    requires IsHigh(high) && IsLow(low)
    ensures IsScalar(cp)
  {
    0x10000 + (high - 0xD800) * 0x400 + (low - 0xDC00)
  }

  predicate IsShort(e: char) { e in "\"\\/bfnrt" }

  /** The character that a two-character escape stands for. */
  function ShortValue(e: char): char
    requires IsShort(e)
  {
    match e
    case 'b' => 8 as char
    case 'f' => 12 as char
    case 'n' => '\n'
    case 'r' => '\r'
    case 't' => '\t'
    case _ => e
  }

  // ---- tokens ----------------------------------------------------------------------

  function SkipWs(t: string): (r: string)
    ensures |r| <= |t|
  {
    if t != "" && IsWs(t[0]) then SkipWs(t[1..]) else t
  }

  function Literal(t: string, word: string, v: Value): (r: Lexed<Value>)
    ensures r.Token? ==> |r.rest| + |word| == |t|
  {
    if word <= t then Token(v, t[|word|..]) else NoToken
  }

  function Hex4(t: string): (r: Lexed<nat>)
    ensures r.Token? ==> r.value < 0x10000 && |r.rest| < |t|
  {
    if |t| >= 4 && AllHex(t[..4]) then Token(HexNumber(t[..4]), t[4..]) else NoToken
  }

  /** The escape after a backslash and the letter u; `t` starts at its first hexadecimal digit. */
  function UnicodeEscape(t: string): (r: Lexed<string>)
    ensures r.Token? ==> |r.rest| < |t|
  {
    var first := Hex4(t);
    if first.NoToken? || IsLow(first.value) then NoToken
    else if !IsHigh(first.value) then Token(Encode(first.value), first.rest)
    else SecondHalf(first.value, first.rest)
  }

  function SecondHalf(high: nat, t: string): (r: Lexed<string>)
    requires IsHigh(high)
    ensures r.Token? ==> |r.rest| < |t|
  {
    if |t| < 6 || t[0] != '\\' || t[1] != 'u' then NoToken else
    var second := Hex4(t[2..]);
    if second.NoToken? || !IsLow(second.value) then NoToken
    else Token(Encode(PairValue(high, second.value)), second.rest)
  }

  function Escape(t: string): (r: Lexed<string>)
    ensures r.Token? ==> |r.rest| < |t|
  {
    if t == "" then NoToken
    else if t[0] == 'u' then UnicodeEscape(t[1..])
    else if IsShort(t[0]) then Token([ShortValue(t[0])], t[1..])
    else NoToken
  }

  /** One character of a string body, escaped or not, that is not the closing quote. */
  function Character(t: string): (r: Lexed<string>)
    requires t != ""
    ensures r.Token? ==> |r.rest| < |t|
  {
    if t[0] < ' ' then NoToken
    else if Byte(t[0]) >= 0x80 then
      var n := CharLength(t);
      if n == 0 then NoToken else Token(t[..n], t[n..])
    else if t[0] != '\\' then Token([t[0]], t[1..])
    else Escape(t[1..])
  }

  /** The rest of a string body, with `out` read before. */
  function Body(t: string, out: string): (r: Lexed<string>)
    ensures r.Token? ==> |r.rest| < |t|
    decreases |t|
  {
    if t == "" then NoToken
    else if t[0] == '"' then Token(out, t[1..])
    else
      var c := Character(t);
      if c.NoToken? then NoToken else Body(c.rest, out + c.value)
  }

  /** A string; `t` starts at its opening quote. */
  function String(t: string): (r: Lexed<string>)
    requires t != ""
    ensures r.Token? ==> |r.rest| < |t|
  {
    Body(t[1..], "")
  }

  function SkipDigits(t: string): (r: string)
    ensures |r| <= |t|
  {
    if t != "" && IsDigit(t[0]) then SkipDigits(t[1..]) else t
  }

  function Digits(t: string): (r: Option<string>)
    ensures r.Some? ==> |r.value| < |t|
  {
    if t != "" && IsDigit(t[0]) then Some(SkipDigits(t)) else None
  }

  function Whole(t: string): (r: Option<string>)
    ensures r.Some? ==> |r.value| < |t|
  {
    if t != "" && t[0] == '0' then
      if |t| > 1 && IsDigit(t[1]) then None else Some(t[1..])
    else Digits(t)
  }

  function Fraction(t: string): (r: Option<string>)
    ensures r.Some? ==> |r.value| <= |t|
  {
    if t != "" && t[0] == '.' then Digits(t[1..]) else Some(t)
  }

  predicate HasSign(t: string) { t != "" && (t[0] == '+' || t[0] == '-') }

  function Exponent(t: string): (r: Option<string>)
    ensures r.Some? ==> |r.value| <= |t|
  {
    if t != "" && (t[0] == 'e' || t[0] == 'E') then
      if HasSign(t[1..]) then Digits(t[2..]) else Digits(t[1..])
    else Some(t)
  }

  /** The text after the number at the front of `t`. */
  function AfterNumber(t: string): (r: Option<string>)
    ensures r.Some? ==> |r.value| < |t|
  {
    var w := Whole(if t != "" && t[0] == '-' then t[1..] else t);
    if w.None? then None else
    var f := Fraction(w.value);
    if f.None? then None else Exponent(f.value)
  }

  function Number(t: string): (r: Lexed<Value>)
    ensures r.Token? ==> |r.rest| < |t|
  {
    var after := AfterNumber(t);
    if after.None? then NoToken else Token(Num(t[..|t| - |after.value|]), after.value)
  }

  /** A value that holds no other values. */
  function Scalar(t: string): (r: Lexed<Value>)
    requires t != ""
    ensures r.Token? ==> |r.rest| < |t|
  {
    if t[0] == '"' then
      var s := String(t);
      if s.NoToken? then NoToken else Token(Str(s.value), s.rest)
    else if t[0] == 't' then Literal(t, "true", Bool(true))
    else if t[0] == 'f' then Literal(t, "false", Bool(false))
    else if t[0] == 'n' then Literal(t, "null", Null)
    else if t[0] == '-' || IsDigit(t[0]) then Number(t)
    else NoToken
  }

  function Counted<T>(r: Lexed<T>, used: nat): Parsed<T> {
    if r.NoToken? then Bad else Good(r.value, r.rest, used)
  }

  // ---- values ----------------------------------------------------------------------

  /** One value at the front of `t`, with `used` values counted before. */
  function PValue(t: string, depth: nat, used: nat, o: Options): (r: Parsed<Value>)
    ensures r.Good? ==> |r.rest| < |t|
    decreases |t|, 0
  {
    if depth > o.maxDepth || used + 1 > o.maxValues || t == "" then Bad
    else if t[0] == '{' then PObject(t, depth, used + 1, o)
    else if t[0] == '[' then PArray(t, depth, used + 1, o)
    else Counted(Scalar(t), used + 1)
  }

  /** An array; `t` starts at its bracket. */
  function PArray(t: string, depth: nat, used: nat, o: Options): (r: Parsed<Value>)
    requires t != ""
    ensures r.Good? ==> |r.rest| < |t|
    decreases |t| - 1, 2
  {
    var u := SkipWs(t[1..]);
    if u != "" && u[0] == ']' then Good(Arr([]), u[1..], used)
    else PItems(u, depth, used, o, [])
  }

  /** The remaining items of an array, with `items` read before. */
  function PItems(t: string, depth: nat, used: nat, o: Options, items: seq<Value>): (r: Parsed<Value>)
    ensures r.Good? ==> |r.rest| < |t|
    decreases |t|, 1
  {
    var v := PValue(t, depth + 1, used, o);
    if v.Bad? then Bad else
    var u := SkipWs(v.rest);
    if u != "" && u[0] == ']' then Good(Arr(items + [v.value]), u[1..], v.used)
    else if u != "" && u[0] == ',' then PItems(SkipWs(u[1..]), depth, v.used, o, items + [v.value])
    else Bad
  }

  /** An object; `t` starts at its brace. */
  function PObject(t: string, depth: nat, used: nat, o: Options): (r: Parsed<Value>)
    requires t != ""
    ensures r.Good? ==> |r.rest| < |t|
    decreases |t| - 1, 2
  {
    var u := SkipWs(t[1..]);
    if u != "" && u[0] == '}' then Good(Obj(map[]), u[1..], used)
    else PMembers(u, depth, used, o, map[])
  }

  /** A key and the colon after it, with the blanks around the colon. */
  function Key(t: string): (r: Lexed<string>)
    ensures r.Token? ==> |r.rest| < |t|
  {
    if t == "" || t[0] != '"' then NoToken else
    var key := String(t);
    if key.NoToken? then NoToken else
    var u := SkipWs(key.rest);
    if u == "" || u[0] != ':' then NoToken else Token(key.value, SkipWs(u[1..]))
  }

  /** The remaining members of an object, with `members` read before. */
  function PMembers(t: string, depth: nat, used: nat, o: Options, members: map<string, Value>): (r: Parsed<Value>)
    ensures r.Good? ==> |r.rest| < |t|
    decreases |t|, 1
  {
    var key := Key(t);
    if key.NoToken? then Bad else
    var v := PValue(key.rest, depth + 1, used, o);
    if v.Bad? || key.value in members then Bad else
    var all := members[key.value := v.value];
    var u := SkipWs(v.rest);
    if u != "" && u[0] == '}' then Good(Obj(all), u[1..], v.used)
    else if u != "" && u[0] == ',' then PMembers(SkipWs(u[1..]), depth, v.used, o, all)
    else Bad
  }

  // ---- whole texts -----------------------------------------------------------------

  const BOM: string := [0xEF as char, 0xBB as char, 0xBF as char]

  function StripBom(t: string): string {
    if BOM <= t then t[3..] else t
  }

  function Parse(input: string, o: Options): Option<Value> {
    if |input| > o.maxBytes then None else
    var v := PValue(SkipWs(StripBom(input)), 0, 0, o);
    if v.Good? && SkipWs(v.rest) == "" then Some(v.value) else None
  }
}
