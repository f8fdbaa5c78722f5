/** Objects printed with one member on each line, as `SerializeRuntimeState` and
    `SerializeConfig` print them, and what the parser reads back from such a text. */
module JsonPrinter {
  import opened Texts
  import opened Utf8
  import opened Json
  import opened JsonGrammar
  import opened JsonTokens
  import opened JsonExact
  import opened JsonQuote

  datatype Printed =
    | PNull
    | PBool(b: bool)
    | PInt(n: nat)
    | PText(s: string)
    | PObject(fields: Fields)

  /** The members of a printed object, in order. */
  datatype Fields =
    | Last(key: string, value: Printed)
    | More(key: string, value: Printed, rest: Fields)

  /** A line break and `indent` blanks. */
  function NewLine(indent: nat): string { "\n" + seq(indent, _ => ' ') }

  function Print(p: Printed, indent: nat): string {
    match p
    case PNull => "null"
    case PBool(b) => if b then "true" else "false"
    case PInt(n) => Decimal(n)
    case PText(s) => Quote(s)
    case PObject(fields) => "{" + NewLine(indent + 2) + PrintFields(fields, indent) + "}"
  }

  function PrintFields(fs: Fields, indent: nat): string {
    match fs
    case Last(key, value) => Quote(key) + ": " + Print(value, indent + 2) + NewLine(indent)
    case More(key, value, rest) =>
      Quote(key) + ": " + Print(value, indent + 2) + "," + NewLine(indent + 2) + PrintFields(rest, indent)
  }

  // ---- what is printed ------------------------------------------------------------------

  /** Texts are well-formed UTF-8 and the keys of an object are distinct. */
  predicate Printable(p: Printed) {
    match p
    case PText(s) => WellFormed(s)
    case PObject(fields) => PrintableFields(fields, {})
    case _ => true
  }

  predicate PrintableFields(fs: Fields, seen: set<string>) {
    && WellFormed(fs.key) && fs.key !in seen && Printable(fs.value)
    && (fs.More? ==> PrintableFields(fs.rest, seen + {fs.key}))
  }

  function ValueOf(p: Printed): Value {
    match p
    case PNull => Null
    case PBool(b) => Bool(b)
    case PInt(n) => Num(Decimal(n))
    case PText(s) => Str(s)
    case PObject(fields) => Obj(FieldMap(fields))
  }

  function FieldMap(fs: Fields): map<string, Value> {
    match fs
    case Last(key, value) => map[key := ValueOf(value)]
    case More(key, value, rest) => FieldMap(rest)[key := ValueOf(value)]
  }

  function Levels(p: Printed): nat {
    if p.PObject? then 1 + FieldLevels(p.fields) else 0
  }

  function FieldLevels(fs: Fields): nat {
    if fs.Last? then Levels(fs.value) else Max(Levels(fs.value), FieldLevels(fs.rest))
  }

  function Size(p: Printed): nat {
    if p.PObject? then 1 + FieldsSize(p.fields) else 1
  }

  function FieldsSize(fs: Fields): nat {
    if fs.Last? then Size(fs.value) else Size(fs.value) + FieldsSize(fs.rest)
  }

  /** A member that is no object. */
  lemma FlatMore(key: string, value: Printed, rest: Fields)
    requires !value.PObject?
    ensures var fs := More(key, value, rest);
            && FieldLevels(fs) == FieldLevels(rest) && FieldsSize(fs) == 1 + FieldsSize(rest)
            && FieldMap(fs) == FieldMap(rest)[key := ValueOf(value)]
  {}

  lemma FlatLast(key: string, value: Printed)
    requires !value.PObject?
    ensures var fs := Last(key, value);
            FieldLevels(fs) == 0 && FieldsSize(fs) == 1 && FieldMap(fs) == map[key := ValueOf(value)]
  {}

  // ---- the tree of the printed text -----------------------------------------------------

  function NodeOf(p: Printed, indent: nat): Node
    requires Printable(p)
  {
    match p
    case PNull => NullNode
    case PBool(b) => if b then TrueNode else FalseNode
    case PInt(n) => NumberNode("", Decimal(n), "", "")
    case PText(s) => StringNode(QuotePieces(s))
    case PObject(fields) => FullObject(NewLine(indent + 2), MembersOf(fields, {}, indent))
  }

  function MembersOf(fs: Fields, seen: set<string>, indent: nat): Members
    requires PrintableFields(fs, seen)
  {
    var key, value := QuotePieces(fs.key), NodeOf(fs.value, indent + 2);
    match fs
    case Last(_, _) => LastMember(key, Colon("", " "), value, NewLine(indent))
    case More(_, _, rest) =>
      MoreMembers(key, Colon("", " "), value, "", NewLine(indent + 2), MembersOf(rest, seen + {fs.key}, indent))
  }

  /** The tree `n` is well-formed, prints as `text`, and means `v`. */
  predicate Renders(n: Node, text: string, v: Value, levels: nat, size: nat) {
    WF(n) && Text(n) == text && Eval(n) == v && Depth(n) == levels && Count(n) == size
  }

  predicate RendersFields(ms: Members, seen: set<string>, text: string, m: map<string, Value>, levels: nat, size: nat) {
    && WFMembers(ms, seen) && MembersText(ms) == text && EvalMembers(ms, seen) == m
    && MembersDepth(ms) == levels && MembersCount(ms) == size
  }

  lemma DecimalNode(n: nat)
    ensures Renders(NumberNode("", Decimal(n), "", ""), Decimal(n), Num(Decimal(n)), 0, 1)
  {
    DecimalCanonical(n);
    var d := Decimal(n);
    if d[0] == '0' { assert d == "0"; }
    assert NumberText("", d, "", "") == d;
  }

  lemma TextNode(s: string)
    requires WellFormed(s)
    ensures Renders(StringNode(QuotePieces(s)), Quote(s), Str(s), 0, 1)
  {
    hide QuotePieces, WFPieces, PiecesText, Meaning, QuoteChars, WellFormed;
    QuotePiecesExact(s);
  }

  lemma NewLineBlank(indent: nat)
    ensures IsBlank(NewLine(indent))
  {}

  lemma {:induction false} PrintedExact(p: Printed, indent: nat)
    requires Printable(p)
    ensures Renders(NodeOf(p, indent), Print(p, indent), ValueOf(p), Levels(p), Size(p))
    decreases p, 0
  {
    hide WFMembers, QuotePieces, Quote, WellFormed;
    match p
    case PInt(n) => DecimalNode(n);
    case PText(s) => TextNode(s);
    case PObject(fields) =>
      NewLineBlank(indent + 2);
      FieldsExact(fields, {}, indent);
      hide NewLine;
      assert Print(p, indent) == "{" + NewLine(indent + 2) + PrintFields(fields, indent) + "}";
    case _ =>
  }

  lemma KeyPrinted(key: string)
    requires WellFormed(key)
    ensures var ps, colon := QuotePieces(key), Colon("", " ");
            WFKey(ps, colon) && Meaning(ps) == key && KeyText(ps, colon) == Quote(key) + ": "
  {
    hide QuotePieces, WFPieces, PiecesText, Meaning, QuoteChars, WellFormed;
    QuotePiecesExact(key);
    assert Quote(key) + "" + ":" + " " == Quote(key) + ": ";
  }

  lemma {:induction false} FieldsExact(fs: Fields, seen: set<string>, indent: nat)
    requires PrintableFields(fs, seen)
    ensures RendersFields(MembersOf(fs, seen, indent), seen, PrintFields(fs, indent) + "}", FieldMap(fs),
                          FieldLevels(fs), FieldsSize(fs))
    decreases fs, 1
  {
    hide NewLine, WF, Eval, Text, Count, Depth, Levels, Size, ValueOf, Print, Quote, QuotePieces, WFPieces, Meaning, WellFormed, KeyText;
    KeyPrinted(fs.key);
    PrintedExact(fs.value, indent + 2);
    NewLineBlank(indent);
    NewLineBlank(indent + 2);
    var head, value := Quote(fs.key) + ": ", Print(fs.value, indent + 2);
    match fs
    case Last(_, _) =>
      assert PrintFields(fs, indent) + "}" == head + value + NewLine(indent) + "}";
    case More(_, _, rest) =>
      FieldsExact(rest, seen + {fs.key}, indent);
      MoreText(head, value, NewLine(indent + 2), PrintFields(rest, indent));
  }

  lemma MoreText(head: string, value: string, line: string, rest: string)
    ensures head + value + "" + "," + line + (rest + "}") == head + value + "," + line + rest + "}"
  {}

  /** Parsing a printed value and the line break after it gives the value back, within the limits. */
  lemma PrintedParses(p: Printed, o: Options)
    requires Printable(p) && Levels(p) <= o.maxDepth && Size(p) <= o.maxValues
    requires |Print(p, 0) + "\n"| <= o.maxBytes
    ensures Parse(Print(p, 0) + "\n", o) == Some(ValueOf(p))
  {
    hide Parse, Print, ValueOf, Levels, Size, NodeOf, Printable, WF, Text, Eval, Depth, Count;
    PrintedExact(p, 0);
    var d := Document(false, "", NodeOf(p, 0), "\n");
    assert "" + "" + Print(p, 0) + "\n" == Print(p, 0) + "\n";
    ParseComplete(d, o);
  }

  // ---- sizes ------------------------------------------------------------------------------

  function FieldCount(fs: Fields): nat { if fs.Last? then 1 else 1 + FieldCount(fs.rest) }

  lemma {:induction false} FieldMapKeys(fs: Fields, seen: set<string>)
    requires PrintableFields(fs, seen)
    ensures FieldMap(fs).Keys !! seen && |FieldMap(fs)| == FieldCount(fs)
  {
    if fs.More? { FieldMapKeys(fs.rest, seen + {fs.key}); }
  }

  /** No value and no key of the fields is printed on more than `width` characters. */
  predicate Narrow(fs: Fields, indent: nat, width: nat) {
    && |fs.key| <= width && |Print(fs.value, indent + 2)| <= width
    && (fs.More? ==> Narrow(fs.rest, indent, width))
  }

  function Total(n: nat, width: nat): nat { if n == 0 then 0 else Total(n - 1, width) + width }

  lemma {:induction false} NarrowSize(fs: Fields, indent: nat, width: nat)
    requires Narrow(fs, indent, width)
    ensures |PrintFields(fs, indent)| <= Total(FieldCount(fs), 7 * width + indent + 8)
  {
    hide Quote, Print;
    QuoteSize(fs.key);
    assert |NewLine(indent)| == indent + 1 && |NewLine(indent + 2)| == indent + 3;
    hide NewLine;
    if fs.More? { NarrowSize(fs.rest, indent, width); }
  }
}
