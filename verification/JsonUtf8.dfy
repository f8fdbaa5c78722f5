/** The parser accepts only well-formed UTF-8, and a printed object is one only if all its texts
    are. */
module JsonUtf8 {
  import opened Texts
  import opened Utf8
  import opened Json
  import opened JsonGrammar
  import opened JsonTokens
  import opened JsonExact
  import opened JsonQuote
  import opened JsonPrinter

  // ---- texts of the grammar ------------------------------------------------------------------

  predicate IsAscii(s: string) { forall i | 0 <= i < |s| :: Byte(s[i]) < 0x80 }

  lemma AsciiBefore(a: string, b: string)
    requires IsAscii(a) && WellFormed(b)
    ensures WellFormed(a + b)
  {
    AsciiWellFormed(a);
    WellFormedConcat(a, b);
  }

  lemma PieceTextUtf8(p: Piece)
    requires WFPiece(p)
    ensures WellFormed(PieceText(p))
  {
    hide CharLength, WellFormed, CodeUnit, WFHex, Unescaped, Surrogates;
    match p
    case Plain(c) => WellFormedChar(c);
    case Short(e) => ShortSame(e); assert IsAscii(PieceText(p)); AsciiWellFormed(PieceText(p));
    case Unicode(h) => HexSame(h); assert IsAscii(PieceText(p)); AsciiWellFormed(PieceText(p));
    case Pair(high, low) => HexSame(high); HexSame(low); assert IsAscii(PieceText(p)); AsciiWellFormed(PieceText(p));
  }

  lemma {:induction false} PiecesUtf8(ps: seq<Piece>)
    requires WFPieces(ps)
    ensures WellFormed(PiecesText(ps))
  {
    hide WFPiece, PieceText, WellFormed;
    if ps == [] {
      EmptyWellFormed();
    } else {
      PieceTextUtf8(ps[0]);
      PiecesUtf8(ps[1..]);
      WellFormedConcat(PieceText(ps[0]), PiecesText(ps[1..]));
    }
  }

  lemma QuotedUtf8(ps: seq<Piece>)
    requires WFPieces(ps)
    ensures WellFormed(Quoted(ps))
  {
    hide WellFormed, PiecesText, WFPieces;
    PiecesUtf8(ps);
    AsciiBefore("\"", PiecesText(ps));
    AsciiWellFormed("\"");
    WellFormedConcat("\"" + PiecesText(ps), "\"");
  }

  lemma NumberAscii(m: string, w: string, f: string, e: string)
    requires IsMinus(m) && IsWhole(w) && IsFraction(f) && IsExponent(e)
    ensures IsAscii(NumberText(m, w, f, e))
  {
    assert IsAscii(m) && IsAscii(w);
    FractionAscii(f);
    ExponentAscii(e);
    hide IsFraction, IsExponent, IsWhole;
    assert IsAscii(m + w) && IsAscii(m + w + f);
  }

  lemma FractionAscii(f: string)
    requires IsFraction(f)
    ensures IsAscii(f)
  {
    if f != "" { assert forall i | 1 <= i < |f| :: f[i] == f[1..][i - 1]; }
  }

  lemma ExponentAscii(e: string)
    requires IsExponent(e)
    ensures IsAscii(e)
  {
    if e != "" {
      if HasSign(e[1..]) {
        assert e[1] == e[1..][0] && forall i | 2 <= i < |e| :: e[i] == e[2..][i - 2];
      } else {
        assert forall i | 1 <= i < |e| :: e[i] == e[1..][i - 1];
      }
    }
  }

  lemma BlankAscii(ws: string)
    requires IsBlank(ws)
    ensures IsAscii(ws)
  {}

  lemma Around(a: string, b: string, c: string)
    requires IsAscii(a) && WellFormed(b) && IsAscii(c)
    ensures WellFormed(a + b + c)
  {
    AsciiBefore(a, b);
    AsciiWellFormed(c);
    WellFormedConcat(a + b, c);
  }

  lemma {:induction false} NodeUtf8(n: Node)
    requires WF(n)
    ensures WellFormed(Text(n))
    decreases n, 0
  {
    hide WellFormed, IsMinus, IsWhole, IsFraction, IsExponent, WFPieces, Quoted, NumberText, IsBlank, WFMembers, ItemsText, MembersText;
    match n
    case NumberNode(m, w, f, e) =>
      NumberAscii(m, w, f, e);
      AsciiWellFormed(Text(n));
    case StringNode(body) => QuotedUtf8(body);
    case EmptyArray(inner) => BlankAscii(inner); AsciiWellFormed("[" + inner + "]");
    case FullArray(before, items) =>
      BlankAscii(before);
      ItemsUtf8(items);
      AsciiBefore("[" + before, ItemsText(items));
    case EmptyObject(inner) => BlankAscii(inner); AsciiWellFormed("{" + inner + "}");
    case FullObject(before, members) =>
      BlankAscii(before);
      MembersUtf8(members, {});
      AsciiBefore("{" + before, MembersText(members));
    case _ => AsciiWellFormed(Text(n));
  }

  lemma {:induction false} ItemsUtf8(xs: Items)
    requires WFItems(xs)
    ensures WellFormed(ItemsText(xs))
    decreases xs, 1
  {
    hide WellFormed, WF, Text, IsBlank;
    NodeUtf8(xs.item);
    BlankAscii(xs.after);
    match xs
    case LastItem(item, after) =>
      Around("", Text(item), after + "]");
      assert "" + Text(item) + (after + "]") == Text(item) + after + "]";
    case MoreItems(item, after, next, rest) =>
      BlankAscii(next);
      ItemsUtf8(rest);
      Around("", Text(item), after + "," + next);
      WellFormedConcat("" + Text(item) + (after + "," + next), ItemsText(rest));
      assert "" + Text(item) + (after + "," + next) + ItemsText(rest) == Text(item) + after + "," + next + ItemsText(rest);
  }

  lemma KeyUtf8(key: seq<Piece>, colon: Colon)
    requires WFKey(key, colon)
    ensures WellFormed(KeyText(key, colon))
  {
    hide WellFormed, WFPieces, Quoted, IsBlank;
    QuotedUtf8(key);
    BlankAscii(colon.left);
    BlankAscii(colon.right);
    Around("", Quoted(key), colon.left + ":" + colon.right);
    assert "" + Quoted(key) + (colon.left + ":" + colon.right) == KeyText(key, colon);
  }

  lemma {:induction false} MembersUtf8(ms: Members, seen: set<string>)
    requires WFMembers(ms, seen)
    ensures WellFormed(MembersText(ms))
    decreases ms, 1
  {
    hide WellFormed, WF, Text, IsBlank, WFPieces, KeyText, Meaning;
    KeyUtf8(ms.key, ms.colon);
    NodeUtf8(ms.value);
    WellFormedConcat(KeyText(ms.key, ms.colon), Text(ms.value));
    BlankAscii(ms.after);
    var head := KeyText(ms.key, ms.colon) + Text(ms.value);
    match ms
    case LastMember(_, _, _, after) =>
      Around("", head, after + "}");
      assert "" + head + (after + "}") == head + after + "}";
    case MoreMembers(_, _, _, after, next, rest) =>
      BlankAscii(next);
      MembersUtf8(rest, seen + {Meaning(ms.key)});
      Around("", head, after + "," + next);
      WellFormedConcat("" + head + (after + "," + next), MembersText(rest));
      assert "" + head + (after + "," + next) + MembersText(rest) == head + after + "," + next + MembersText(rest);
  }

  /** An accepted input is well-formed UTF-8 as a whole, not only inside its strings. */
  lemma AcceptedIsUtf8(input: string, o: Options)
    requires Parse(input, o).Some?
    ensures WellFormed(input) && |input| <= o.maxBytes
  {
    hide Parse, WF, Text, IsBlank, WellFormed, Depth, Count;
    var d := ParseSound(input, o);
    NodeUtf8(d.root);
    BlankAscii(d.before);
    BlankAscii(d.after);
    Around(d.before, Text(d.root), d.after);
    MarkUtf8();
    var mark := if d.bom then BOM else "";
    WellFormedConcat(mark, d.before + Text(d.root) + d.after);
    assert mark + (d.before + Text(d.root) + d.after) == input;
  }

  lemma MarkUtf8()
    ensures WellFormed(BOM) && WellFormed("")
  {
    assert CharLength(BOM) == 3;
    WellFormedChar(BOM);
  }

  // ---- printed texts ---------------------------------------------------------------------------

  /** What follows a well-formed beginning is well-formed by itself. */
  lemma {:induction false} WellFormedRest(a: string, b: string)
    requires WellFormed(a) && WellFormed(a + b)
    ensures WellFormed(b)
    decreases |a|
  {
    hide CharLength;
    if a == "" {
      assert a + b == b;
    } else {
      var n := CharLength(a);
      CharLengthConcat(a, b);
      assert (a + b)[n..] == a[n..] + b;
      WellFormedRest(a[n..], b);
    }
  }

  /** A quoted text inside a well-formed text is well-formed. */
  lemma {:induction false} QuotedInside(s: string, r: string)
    requires WellFormed(QuoteChars(s) + "\"" + r)
    ensures WellFormed(s)
    decreases |s|
  {
    hide QuoteChars, QuoteChar, CharLength;
    if s == "" {
      EmptyWellFormed();
    } else {
      var t := QuoteChars(s) + "\"" + r;
      if Byte(s[0]) < 0x80 {
        QuoteCharsCut(s, r);
        AsciiQuote(s[0]);
        AsciiWellFormed(QuoteChar(s[0]));
        WellFormedRest(QuoteChar(s[0]), QuoteChars(s[1..]) + "\"" + r);
        QuotedInside(s[1..], r);
        OneByteFront(s);
      } else {
        HighInside(s, r);
        QuotedInside(s[CharLength(s)..], r);
      }
    }
  }

  lemma QuoteCharsCut(s: string, r: string)
    requires s != ""
    ensures QuoteChars(s) + "\"" + r == QuoteChar(s[0]) + (QuoteChars(s[1..]) + "\"" + r)
  {}

  lemma AsciiQuote(c: char)
    requires Byte(c) < 0x80
    ensures IsAscii(QuoteChar(c))
  {}

  lemma DropConcat(a: string, b: string, n: nat)
    requires n <= |a|
    ensures (a + b)[n..] == a[n..] + b
  {}

  lemma HighInside(s: string, r: string)
    requires s != "" && Byte(s[0]) >= 0x80 && WellFormed(QuoteChars(s) + "\"" + r)
    ensures CharLength(s) > 0 && WellFormed(QuoteChars(s[CharLength(s)..]) + "\"" + r)
  {
    hide QuoteChars, CharLength;
    var t := QuoteChars(s) + "\"";
    var all := t + r;
    HighByte(s);
    assert all[0] == t[0];
    var n := CharLength(all);
    MultiByteShape(all);
    assert all[|t| - 1] == '"';
    assert forall i | 0 <= i < n :: t[i] == all[i];
    HighPrefix(s, n);
    assert t[..n] == all[..n];
    SamePrefix(all, s, n);
    DropConcat(t, r, n);
  }

  /** Every text in a printed value is well-formed, if the print is. */
  lemma {:induction false} PrintedInside(p: Printed, indent: nat, r: string)
    requires KeysOk(p) && WellFormed(Print(p, indent) + r)
    ensures Printable(p) && WellFormed(r)
    decreases p, 0
  {
    hide QuoteChars, WellFormed, Decimal;
    match p
    case PText(s) =>
      assert Print(p, indent) + r == "\"" + (QuoteChars(s) + "\"" + r);
      AsciiWellFormed("\"");
      WellFormedRest("\"", QuoteChars(s) + "\"" + r);
      QuotedInside(s, r);
      QuotedRest(s, r);
    case PObject(fields) =>
      var front := "{" + NewLine(indent + 2);
      assert IsAscii(front);
      AsciiWellFormed(front);
      assert Print(p, indent) + r == front + (PrintFields(fields, indent) + ("}" + r));
      WellFormedRest(front, PrintFields(fields, indent) + ("}" + r));
      FieldsInside(fields, {}, indent, "}" + r);
      AsciiWellFormed("}");
      WellFormedRest("}", r);
    case _ =>
      PlainAscii(p, indent);
      AsciiWellFormed(Print(p, indent));
      WellFormedRest(Print(p, indent), r);
  }

  lemma PlainAscii(p: Printed, indent: nat)
    requires !p.PText? && !p.PObject?
    ensures IsAscii(Print(p, indent))
  {}

  lemma QuotedRest(s: string, r: string)
    requires WellFormed(s) && WellFormed(QuoteChars(s) + "\"" + r)
    ensures WellFormed(r)
  {
    hide QuoteChars, WellFormed, WFPieces, QuotePieces, PiecesText, Meaning;
    QuotePiecesExact(s);
    QuotedUtf8(QuotePieces(s));
    assert Quote(s) == "\"" + (QuoteChars(s) + "\"");
    AsciiWellFormed("\"");
    WellFormedRest("\"", QuoteChars(s) + "\"");
    WellFormedRest(QuoteChars(s) + "\"", r);
  }

  /** The keys are well-formed and distinct. */
  predicate KeysOk(p: Printed) { p.PObject? ==> FieldKeysOk(p.fields, {}) }

  predicate FieldKeysOk(fs: Fields, seen: set<string>) {
    && WellFormed(fs.key) && fs.key !in seen && KeysOk(fs.value)
    && (fs.More? ==> FieldKeysOk(fs.rest, seen + {fs.key}))
  }

  lemma {:induction false} FieldsInside(fs: Fields, seen: set<string>, indent: nat, r: string)
    requires FieldKeysOk(fs, seen) && WellFormed(PrintFields(fs, indent) + r)
    ensures PrintableFields(fs, seen) && WellFormed(r)
    decreases fs, 1
  {
    hide WellFormed, Quote, Print, NewLine, KeysOk, Printable;
    var value := Print(fs.value, indent + 2);
    KeyUtf8Printed(fs.key);
    NewLineAscii(indent);
    NewLineAscii(indent + 2);
    match fs
    case Last(_, _) =>
      var rest := NewLine(indent) + r;
      assert PrintFields(fs, indent) + r == (Quote(fs.key) + ": ") + (value + rest);
      WellFormedRest(Quote(fs.key) + ": ", value + rest);
      PrintedInside(fs.value, indent + 2, rest);
      AsciiWellFormed(NewLine(indent));
      WellFormedRest(NewLine(indent), r);
    case More(_, _, more) =>
      var line := "," + NewLine(indent + 2);
      var rest := line + (PrintFields(more, indent) + r);
      assert PrintFields(fs, indent) + r == (Quote(fs.key) + ": ") + (value + rest);
      WellFormedRest(Quote(fs.key) + ": ", value + rest);
      PrintedInside(fs.value, indent + 2, rest);
      AsciiWellFormed(line);
      WellFormedRest(line, PrintFields(more, indent) + r);
      FieldsInside(more, seen + {fs.key}, indent, r);
  }

  lemma NewLineAscii(indent: nat)
    ensures IsAscii(NewLine(indent)) && IsAscii("," + NewLine(indent))
  {}

  lemma KeyUtf8Printed(key: string)
    requires WellFormed(key)
    ensures WellFormed(Quote(key) + ": ")
  {
    hide WellFormed, Quote, WFKey, KeyText, QuotePieces;
    KeyPrinted(key);
    KeyUtf8(QuotePieces(key), Colon("", " "));
  }

  /** A printed value that the parser accepts holds well-formed texts only. */
  lemma AcceptedPrint(p: Printed, o: Options)
    requires KeysOk(p) && Parse(Print(p, 0) + "\n", o).Some?
    ensures Printable(p) && |Print(p, 0) + "\n"| <= o.maxBytes
  {
    hide Parse, Print, KeysOk, Printable, WellFormed;
    AcceptedIsUtf8(Print(p, 0) + "\n", o);
    PrintedInside(p, 0, "\n");
  }
}
