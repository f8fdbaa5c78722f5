/** `json::Quote` and its round trip through the parser. */
module JsonQuote {
  import opened Texts
  import opened Utf8
  import opened Json
  import opened JsonGrammar
  import opened JsonTokens
  import opened JsonExact

  function HexDigit(d: nat): (c: char)
    requires d < 16
  {
    "0123456789abcdef"[d]
  }

  /** The letter of the two-character escape that `Quote` writes for a character, if it has one. */
  function ShortFor(c: char): Option<char> {
    if c == '"' || c == '\\' then Some(c)
    else if c == 8 as char then Some('b')
    else if c == 12 as char then Some('f')
    else if c == '\n' then Some('n')
    else if c == '\r' then Some('r')
    else if c == '\t' then Some('t')
    else None
  }

  function QuoteChar(c: char): string {
    if ShortFor(c).Some? then ['\\', ShortFor(c).value]
    else if c < ' ' then "\\u00" + [HexDigit(c as nat / 16), HexDigit(c as nat % 16)]
    else [c]
  }

  function QuoteChars(s: string): string {
    if s == "" then "" else QuoteChar(s[0]) + QuoteChars(s[1..])
  }

  function Quote(s: string): string { "\"" + QuoteChars(s) + "\"" }

  lemma {:induction false} QuoteCharsSnoc(s: string, c: char)
    ensures QuoteChars(s + [c]) == QuoteChars(s) + QuoteChar(c)
  {
    hide QuoteChar;
    if s == "" {
      assert s + [c] == [c] && [c][1..] == "";
      assert QuoteChars([c]) == QuoteChar(c) + "";
    } else {
      QuoteCharsSnoc(s[1..], c);
      assert (s + [c])[1..] == s[1..] + [c];
    }
  }

  /** The loop of the source, which appends to a buffer. */
  method QuoteText(input: string) returns (out: string)
    ensures out == Quote(input)
  {
    hide QuoteChar, QuoteChars;
    out := "\"";
    QuoteNone();
    for i := 0 to |input|
      invariant out == "\"" + QuoteChars(input[..i])
    {
      QuoteCharsSnoc(input[..i], input[i]);
      assert input[..i + 1] == input[..i] + [input[i]];
      out := AppendQuoted(out, input[i]);
    }
    assert input[..|input|] == input;
    out := out + "\"";
  }

  /** The switch of the source over one character. */
  method AppendQuoted(before: string, c: char) returns (out: string)
    ensures out == before + QuoteChar(c)
  {
    out := before;
    match c
    case '"' => out := out + "\\\"";
    case '\\' => out := out + "\\\\";
    case '\n' => out := out + "\\n";
    case '\r' => out := out + "\\r";
    case '\t' => out := out + "\\t";
    case _ =>
      if c == 8 as char {
        out := out + "\\b";
      } else if c == 12 as char {
        out := out + "\\f";
      } else if c < ' ' {
        out := out + "\\u00";
        out := out + ["0123456789abcdef"[c as nat / 16]];
        out := out + ["0123456789abcdef"[c as nat % 16]];
      } else {
        out := out + [c];
      }
  }

  // ---- well-formed input --------------------------------------------------------------

  /** The grammar's reading of one quoted ASCII character. */
  function AsciiPiece(c: char): Piece {
    if ShortFor(c).Some? then Short(ShortFor(c).value)
    else if c < ' ' then Unicode("00" + [HexDigit(c as nat / 16), HexDigit(c as nat % 16)])
    else Plain([c])
  }

  lemma AsciiPieceExact(c: char)
    requires Byte(c) < 0x80
    ensures var p := AsciiPiece(c);
            PieceText(p) == QuoteChar(c) && WFPiece(p) && PieceMeaning(p) == [c]
  {
    hide CodeUnit, WFHex, Unescaped;
    if ShortFor(c).None? && c < ' ' {
      var b := c as nat;
      HexDigitExact(b / 16);
      HexDigitExact(b % 16);
      var h := "00" + [HexDigit(b / 16), HexDigit(b % 16)];
      assert h[0] == '0' && h[1] == '0' && h[2] == HexDigit(b / 16) && h[3] == HexDigit(b % 16);
      assert HexNumber(h) == b;
      HexSame(h);
    } else if ShortFor(c).Some? {
      ShortSame(ShortFor(c).value);
    }
  }

  lemma HexDigitExact(d: nat)
    requires d < 16
    ensures IsHex(HexDigit(d)) && HexValue(HexDigit(d)) == d
  {}

  /** The grammar's reading of the quoted form of a text. */
  function QuotePieces(s: string): seq<Piece>
    requires WellFormed(s)
    decreases |s|
  {
    if s == "" then [] else
    var n := CharLength(s);
    [if Byte(s[0]) < 0x80 then AsciiPiece(s[0]) else Plain(s[..n])] + QuotePieces(s[n..])
  }

  lemma HighPieceExact(s: string)
    requires s != "" && Byte(s[0]) >= 0x80 && CharLength(s) > 0
    ensures var c := s[..CharLength(s)];
            WFPiece(Plain(c)) && QuoteChars(c) == c
  {
    var n := CharLength(s);
    var c := s[..n];
    assert CharLength(c) == n;
    assert forall i | 0 <= i < n :: Byte(s[i]) >= 0x80;
    QuoteHigh(c);
  }

  lemma {:induction false} QuoteHigh(c: string)
    requires forall i | 0 <= i < |c| :: Byte(c[i]) >= 0x80
    ensures QuoteChars(c) == c
  {
    if c != "" {
      QuoteHigh(c[1..]);
      assert QuoteChar(c[0]) == [c[0]];
    }
  }

  lemma QuoteCharsCons(c: char, s: string)
    ensures QuoteChars([c] + s) == QuoteChar(c) + QuoteChars(s)
  {
    hide QuoteChar;
    assert ([c] + s)[1..] == s;
  }

  lemma {:induction false} QuoteCharsConcat(a: string, b: string)
    ensures QuoteChars(a + b) == QuoteChars(a) + QuoteChars(b)
  {
    hide QuoteChar, QuoteChars;
    if a == "" {
      QuoteNone();
      assert a + b == b && "" + QuoteChars(b) == QuoteChars(b);
    } else {
      QuoteCharsConcat(a[1..], b);
      QuoteCharsCons(a[0], a[1..]);
      QuoteCharsCons(a[0], a[1..] + b);
      Regroup3([a[0]], a[1..], b);
      assert [a[0]] + a[1..] == a;
      Regroup3(QuoteChar(a[0]), QuoteChars(a[1..]), QuoteChars(b));
    }
  }

  lemma {:induction false} QuotePiecesExact(s: string)
    requires WellFormed(s)
    ensures var ps := QuotePieces(s);
            WFPieces(ps) && PiecesText(ps) == QuoteChars(s) && Meaning(ps) == s
    decreases |s|
  {
    hide CharLength, WFPiece, PieceText, PieceMeaning, AsciiPiece, QuoteChar, QuoteChars;
    if s == "" {
      QuoteNone();
    } else {
      var n := CharLength(s);
      FirstPieceExact(s);
      QuotePiecesExact(s[n..]);
      QuoteCharsConcat(s[..n], s[n..]);
      assert s == s[..n] + s[n..];
      MeaningCons(QuotePieces(s)[0], QuotePieces(s[n..]));
    }
  }

  lemma QuoteNone()
    ensures QuoteChars("") == ""
  {}

  lemma FirstPieceExact(s: string)
    requires s != "" && WellFormed(s)
    ensures var p, c := QuotePieces(s)[0], s[..CharLength(s)];
            WFPiece(p) && PieceText(p) == QuoteChars(c) && PieceMeaning(p) == c
  {
    hide WFPiece, AsciiPiece, QuoteChar;
    if Byte(s[0]) < 0x80 {
      AsciiPieceExact(s[0]);
      assert s[..1] == [s[0]] && [s[0]][1..] == "";
      assert QuoteChar(s[0]) + "" == QuoteChar(s[0]);
    } else {
      HighPieceExact(s);
    }
  }

  // ---- ill-formed input ---------------------------------------------------------------

  /** A quoted text is not read as a string unless the text is well-formed. */
  lemma {:induction false} QuotedIsWellFormed(s: string, out: string)
    requires Body(QuoteChars(s) + "\"", out).Token?
    ensures WellFormed(s)
    decreases |s|
  {
    hide Character, QuoteChar, CharLength;
    if s != "" {
      var t := QuoteChars(s) + "\"";
      var c := Character(t);
      QuoteCharFront(s[0]);
      assert t == QuoteChar(s[0]) + (QuoteChars(s[1..]) + "\"");
      if Byte(s[0]) < 0x80 {
        AsciiStep(s[0], QuoteChars(s[1..]) + "\"");
        QuotedIsWellFormed(s[1..], out + c.value);
        OneByteFront(s);
      } else {
        HighStep(s);
        var n := CharLength(s);
        QuotedIsWellFormed(s[n..], out + c.value);
      }
    }
  }

  lemma QuoteCharFront(c: char)
    ensures QuoteChar(c) != "" && QuoteChar(c)[0] != '"'
  {}

  lemma OneByteFront(s: string)
    requires s != "" && Byte(s[0]) < 0x80
    ensures CharLength(s) == 1
  {}

  lemma AsciiStep(c: char, r: string)
    requires Byte(c) < 0x80
    ensures Character(QuoteChar(c) + r) == Token([c], r)
  {
    hide Character, QuoteChar, WFPiece, PieceText, PieceMeaning, AsciiPiece;
    AsciiPieceExact(c);
    CharacterOver(AsciiPiece(c), r);
  }

  /** The first byte of a quoted text with a byte above ASCII stands for itself. */
  lemma HighByte(s: string)
    ensures var t := QuoteChars(s) + "\"";
            && t != ""
            && (Byte(t[0]) >= 0x80 ==> s != "" && s[0] == t[0] && t[1..] == QuoteChars(s[1..]) + "\"")
            && (s != "" && Byte(s[0]) >= 0x80 ==> t[0] == s[0])
  {
    if s != "" { assert QuoteChars(s) == QuoteChar(s[0]) + QuoteChars(s[1..]); }
  }

  lemma HighStep(s: string)
    requires s != "" && Byte(s[0]) >= 0x80 && Character(QuoteChars(s) + "\"").Token?
    ensures CharLength(s) > 0
    ensures Character(QuoteChars(s) + "\"").rest == QuoteChars(s[CharLength(s)..]) + "\""
  {
    hide Escape, QuoteChars, CharLength;
    var t := QuoteChars(s) + "\"";
    HighByte(s);
    var n := CharLength(t);
    MultiByteShape(t);
    HighPrefix(s, n);
    SamePrefix(t, s, n);
  }

  /** As far as a quoted text has bytes above ASCII, it is the text. */
  lemma {:induction false} HighPrefix(s: string, n: nat)
    requires n <= |QuoteChars(s) + "\""| && forall i | 0 <= i < n :: Byte((QuoteChars(s) + "\"")[i]) >= 0x80
    ensures n <= |s| && s[..n] == (QuoteChars(s) + "\"")[..n]
    ensures (QuoteChars(s) + "\"")[n..] == QuoteChars(s[n..]) + "\""
    decreases n
  {
    hide QuoteChars;
    var t := QuoteChars(s) + "\"";
    if n > 0 {
      HighByte(s);
      assert forall i | 0 <= i < n - 1 :: t[1..][i] == t[i + 1];
      HighPrefix(s[1..], n - 1);
      assert s[..n] == [s[0]] + s[1..][..n - 1] && t[..n] == [t[0]] + t[1..][..n - 1];
      assert s[1..][n - 1..] == s[n..] && t[1..][n - 1..] == t[n..];
    }
  }

  lemma SamePrefix(t: string, s: string, n: nat)
    requires CharLength(t) == n > 0 && n <= |s| && s[..n] == t[..n]
    ensures CharLength(s) == n
  {
    assert forall i | 0 <= i < n :: s[i] == s[..n][i] == t[i];
  }

  // ---- the round trip -----------------------------------------------------------------

  function StringDocument(s: string): Document
    requires WellFormed(s)
  {
    Document(false, "", StringNode(QuotePieces(s)), "")
  }

  lemma QuoteStart(s: string)
    ensures StripBom(Quote(s)) == SkipWs(Quote(s)) == Quote(s)
  {
    hide QuoteChars;
    assert Quote(s)[0] == '"' != BOM[0];
  }

  /** Parsing a quoted text gives the text back exactly when it is well-formed UTF-8 and the
      quoted form is within the byte limit; otherwise the parser refuses it. */
  lemma ParseOfQuote(s: string, o: Options)
    ensures Parse(Quote(s), o)
         == if WellFormed(s) && |Quote(s)| <= o.maxBytes && 1 <= o.maxValues then Some(Str(s)) else None
  {
    hide Body, QuoteChars, CharLength, SkipWs, WellFormed;
    QuoteStart(s);
    if WellFormed(s) && |Quote(s)| <= o.maxBytes && 1 <= o.maxValues {
      QuoteAccepted(s, o);
    } else if Parse(Quote(s), o).Some? {
      var t := Quote(s);
      assert t[1..] == QuoteChars(s) + "\"";
      QuotedIsWellFormed(s, "");
      assert false;
    }
  }

  lemma QuoteAccepted(s: string, o: Options)
    requires WellFormed(s) && |Quote(s)| <= o.maxBytes && 1 <= o.maxValues
    ensures Parse(Quote(s), o) == Some(Str(s))
  {
    hide Parse, WellFormed, QuoteChars, QuotePieces, WFPieces, PiecesText, Meaning;
    var d := StringDocument(s);
    QuotePiecesExact(s);
    assert "" + "" + Quote(s) + "" == Quote(s);
    ParseComplete(d, o);
  }

  lemma {:induction false} QuoteSize(s: string)
    ensures |Quote(s)| <= 6 * |s| + 2
  {
    if s != "" {
      assert Quote(s) == "\"" + (QuoteChar(s[0]) + QuoteChars(s[1..])) + "\"";
      QuoteSize(s[1..]);
    }
  }
}
