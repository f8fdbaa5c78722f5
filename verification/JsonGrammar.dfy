/** The grammar of RFC 8259, sections 2 to 7, as concrete syntax trees: what text a tree stands
    for, what value it means, and when it is well-formed. */
module JsonGrammar {
  import opened Texts
  import opened Utf8
  import opened Json

  /** One character of a string body (section 7). */
  datatype Piece =
    | Plain(c: string)              // unescaped, as UTF-8
    | Short(e: char)                // a two-character escape
    | Unicode(h: string)            // four hexadecimal digits
    | Pair(high: string, low: string)

  datatype Node =
    | NullNode
    | TrueNode
    | FalseNode
    | NumberNode(minus: string, whole: string, fraction: string, exponent: string)
    | StringNode(body: seq<Piece>)
    | EmptyArray(inner: string)
    | FullArray(before: string, items: Items)
    | EmptyObject(inner: string)
    | FullObject(before: string, members: Members)

  /** The items of an array up to its closing bracket, with the blanks around each. */
  datatype Items =
    | LastItem(item: Node, after: string)
    | MoreItems(item: Node, after: string, next: string, rest: Items)

  /** The members of an object up to its closing brace. */
  datatype Members =
    | LastMember(key: seq<Piece>, colon: Colon, value: Node, after: string)
    | MoreMembers(key: seq<Piece>, colon: Colon, value: Node, after: string, next: string, rest: Members)

  /** The blanks before and after a colon. */
  datatype Colon = Colon(left: string, right: string)

  /** A whole JSON text: an optional byte order mark, blanks, one value, blanks. */
  datatype Document = Document(bom: bool, before: string, root: Node, after: string)

  // ---- texts -----------------------------------------------------------------------

  function PieceText(p: Piece): string {
    match p
    case Plain(c) => c
    case Short(e) => ['\\', e]
    case Unicode(h) => "\\u" + h
    case Pair(high, low) => "\\u" + high + "\\u" + low
  }

  function PiecesText(ps: seq<Piece>): string {
    if ps == [] then "" else PieceText(ps[0]) + PiecesText(ps[1..])
  }

  function Quoted(ps: seq<Piece>): string { "\"" + PiecesText(ps) + "\"" }

  function NumberText(minus: string, whole: string, fraction: string, exponent: string): string {
    minus + whole + fraction + exponent
  }

  function Text(n: Node): string {
    match n
    case NullNode => "null"
    case TrueNode => "true"
    case FalseNode => "false"
    case NumberNode(m, w, f, e) => NumberText(m, w, f, e)
    case StringNode(body) => Quoted(body)
    case EmptyArray(inner) => "[" + inner + "]"
    case FullArray(before, items) => "[" + before + ItemsText(items)
    case EmptyObject(inner) => "{" + inner + "}"
    case FullObject(before, members) => "{" + before + MembersText(members)
  }

  function ItemsText(xs: Items): string {
    match xs
    case LastItem(item, after) => Text(item) + after + "]"
    case MoreItems(item, after, next, rest) => Text(item) + after + "," + next + ItemsText(rest)
  }

  function KeyText(key: seq<Piece>, colon: Colon): string {
    Quoted(key) + colon.left + ":" + colon.right
  }

  function MembersText(ms: Members): string {
    match ms
    case LastMember(key, colon, value, after) => KeyText(key, colon) + Text(value) + after + "}"
    case MoreMembers(key, colon, value, after, next, rest) =>
      KeyText(key, colon) + Text(value) + after + "," + next + MembersText(rest)
  }

  function DocumentText(d: Document): string {
    (if d.bom then [0xEF as char, 0xBB as char, 0xBF as char] else "") + d.before + Text(d.root) + d.after
  }

  // ---- well-formedness -------------------------------------------------------------

  /** Blank, tab, line feed or carriage return (section 2). */
  predicate IsBlankChar(c: char) { Byte(c) == 0x20 || Byte(c) == 0x09 || Byte(c) == 0x0A || Byte(c) == 0x0D }

  predicate IsBlank(ws: string) { forall i | 0 <= i < |ws| :: IsBlankChar(ws[i]) }

  predicate IsDigits(s: string) { s != "" && AllDigits(s) }

  predicate IsWhole(s: string) { s == "0" || (IsDigits(s) && s[0] != '0') }

  predicate IsFraction(s: string) { s == "" || (s[0] == '.' && IsDigits(s[1..])) }

  predicate IsExponent(s: string) {
    s == "" || ((s[0] == 'e' || s[0] == 'E') && IsDigits(if HasSign(s[1..]) then s[2..] else s[1..]))
  }

  predicate IsMinus(s: string) { s == "" || s == "-" }

  const HEX_DIGITS: string := "0123456789abcdef"

  /** The value of a hexadecimal digit in either case; 16 for any other character. */
  function Nibble(c: char): nat { Find(HEX_DIGITS, if 'A' <= c <= 'F' then LowerChar(c) else c, 0) }

  predicate WFHex(h: string) { |h| == 4 && forall i | 0 <= i < 4 :: Nibble(h[i]) < 16 }

  /** The UTF-16 code unit that four hexadecimal digits are. */
  function CodeUnit(h: string): nat {
    if |h| != 4 then 0x10000 else
    0x1000 * Nibble(h[0]) + 0x100 * Nibble(h[1]) + 0x10 * Nibble(h[2]) + Nibble(h[3])
  }

  /** The code point of a surrogate pair (section 2.1 of RFC 2781). */
  function Surrogates(high: nat, low: nat): nat { 0x10000 + 0x400 * (high % 0x400) + low % 0x400 }

  /** The character that a two-character escape stands for (section 7); nothing for other letters. */
  function Unescaped(e: char): string {
    match Byte(e)
    case 0x22 => [0x22 as char]
    case 0x5C => [0x5C as char]
    case 0x2F => [0x2F as char]
    case 0x62 => [0x08 as char]
    case 0x66 => [0x0C as char]
    case 0x6E => [0x0A as char]
    case 0x72 => [0x0D as char]
    case 0x74 => [0x09 as char]
    case _ => ""
  }

  /** An unescaped character: well-formed UTF-8, and not a control, a quote or a backslash. */
  predicate WFPlain(c: string) {
    c != "" && CharLength(c) == |c| && c[0] >= ' ' && c[0] != '"' && c[0] != '\\'
  }

  predicate WFPiece(p: Piece) {
    match p
    case Plain(c) => WFPlain(c)
    case Short(e) => Unescaped(e) != ""
    case Unicode(h) => WFHex(h) && IsScalar(CodeUnit(h))
    case Pair(high, low) => WFHex(high) && WFHex(low) && 0xD800 <= CodeUnit(high) < 0xDC00 <= CodeUnit(low) < 0xE000
  }

  predicate WFPieces(ps: seq<Piece>) { forall i | 0 <= i < |ps| :: WFPiece(ps[i]) }

  predicate WF(n: Node) {
    match n
    case NumberNode(m, w, f, e) => IsMinus(m) && IsWhole(w) && IsFraction(f) && IsExponent(e)
    case StringNode(body) => WFPieces(body)
    case EmptyArray(inner) => IsBlank(inner)
    case FullArray(before, items) => IsBlank(before) && WFItems(items)
    case EmptyObject(inner) => IsBlank(inner)
    case FullObject(before, members) => IsBlank(before) && WFMembers(members, {})
    case _ => true
  }

  predicate WFItems(xs: Items) {
    match xs
    case LastItem(item, after) => WF(item) && IsBlank(after)
    case MoreItems(item, after, next, rest) => WF(item) && IsBlank(after) && IsBlank(next) && WFItems(rest)
  }

  predicate WFKey(key: seq<Piece>, colon: Colon) {
    WFPieces(key) && IsBlank(colon.left) && IsBlank(colon.right)
  }

  /** Well-formed members whose keys are distinct, and not among `seen`. */
  predicate WFMembers(ms: Members, seen: set<string>) {
    match ms
    case LastMember(key, colon, value, after) =>
      WFKey(key, colon) && Meaning(key) !in seen && WF(value) && IsBlank(after)
    case MoreMembers(key, colon, value, after, next, rest) =>
      && WFKey(key, colon) && Meaning(key) !in seen && WF(value) && IsBlank(after) && IsBlank(next)
      && WFMembers(rest, seen + {Meaning(key)})
  }

  predicate WFDocument(d: Document) { IsBlank(d.before) && WF(d.root) && IsBlank(d.after) }

  // ---- meaning ---------------------------------------------------------------------

  function PieceMeaning(p: Piece): string
    requires WFPiece(p)
  {
    match p
    case Plain(c) => c
    case Short(e) => Unescaped(e)
    case Unicode(h) => Encode(CodeUnit(h))
    case Pair(high, low) => Encode(Surrogates(CodeUnit(high), CodeUnit(low)))
  }

  function Meaning(ps: seq<Piece>): string
    requires WFPieces(ps)
  {
    if ps == [] then "" else PieceMeaning(ps[0]) + Meaning(ps[1..])
  }

  function Eval(n: Node): Value
    requires WF(n)
  {
    match n
    case NullNode => Null
    case TrueNode => Bool(true)
    case FalseNode => Bool(false)
    case NumberNode(m, w, f, e) => Num(NumberText(m, w, f, e))
    case StringNode(body) => Str(Meaning(body))
    case EmptyArray(_) => Arr([])
    case FullArray(_, items) => Arr(EvalItems(items))
    case EmptyObject(_) => Obj(map[])
    case FullObject(_, members) => Obj(EvalMembers(members, {}))
  }

  function EvalItems(xs: Items): seq<Value>
    requires WFItems(xs)
  {
    match xs
    case LastItem(item, _) => [Eval(item)]
    case MoreItems(item, _, _, rest) => [Eval(item)] + EvalItems(rest)
  }

  function EvalMembers(ms: Members, seen: set<string>): (r: map<string, Value>)
    requires WFMembers(ms, seen)
    ensures r.Keys !! seen
  {
    match ms
    case LastMember(key, _, value, _) => map[Meaning(key) := Eval(value)]
    case MoreMembers(key, _, value, _, _, rest) =>
      EvalMembers(rest, seen + {Meaning(key)})[Meaning(key) := Eval(value)]
  }

  // ---- size ------------------------------------------------------------------------

  function Max(a: nat, b: nat): nat { if a < b then b else a }

  function Depth(n: Node): nat {
    match n
    case FullArray(_, items) => 1 + ItemsDepth(items)
    case FullObject(_, members) => 1 + MembersDepth(members)
    case _ => 0
  }

  function ItemsDepth(xs: Items): nat {
    match xs
    case LastItem(item, _) => Depth(item)
    case MoreItems(item, _, _, rest) => Max(Depth(item), ItemsDepth(rest))
  }

  function MembersDepth(ms: Members): nat {
    match ms
    case LastMember(_, _, value, _) => Depth(value)
    case MoreMembers(_, _, value, _, _, rest) => Max(Depth(value), MembersDepth(rest))
  }

  /** How many values a tree holds, itself included. */
  function Count(n: Node): nat {
    match n
    case FullArray(_, items) => 1 + ItemsCount(items)
    case FullObject(_, members) => 1 + MembersCount(members)
    case _ => 1
  }

  function ItemsCount(xs: Items): nat {
    match xs
    case LastItem(item, _) => Count(item)
    case MoreItems(item, _, _, rest) => Count(item) + ItemsCount(rest)
  }

  function MembersCount(ms: Members): nat {
    match ms
    case LastMember(_, _, value, _) => Count(value)
    case MoreMembers(_, _, value, _, _, rest) => Count(value) + MembersCount(rest)
  }

  /** A JSON text within the limits of a parse. */
  predicate Within(d: Document, o: Options) {
    |DocumentText(d)| <= o.maxBytes && Depth(d.root) <= o.maxDepth && Count(d.root) <= o.maxValues
  }
}
