/** `Json.Parse` accepts exactly the JSON texts of RFC 8259 whose strings are well-formed UTF-8,
    whose keys are distinct and that stay within the limits, and gives their meaning. */
module JsonExact {
  import opened Texts
  import opened Utf8
  import opened Json
  import opened JsonGrammar
  import opened JsonTokens

  // ---- soundness: what the parser read is in the grammar --------------------------------

  /** `r` is what reading the tree `n` at the front of `t` gives, within the limits. */
  predicate ReadAs(t: string, depth: nat, used: nat, o: Options, n: Node, r: Parsed<Value>) {
    && r.Good? && WF(n) && r.value == Eval(n) && t == Text(n) + r.rest
    && r.used == used + Count(n) && r.used <= o.maxValues && depth + Depth(n) <= o.maxDepth
  }

  lemma ScalarSplit(t: string) returns (n: Node)
    requires t != "" && Scalar(t).Token?
    ensures WF(n) && Scalar(t).value == Eval(n) && t == Text(n) + Scalar(t).rest
    ensures Count(n) == 1 && Depth(n) == 0
  {
    hide String, Number, Meaning, Quoted, WFPieces, NumberText;
    if t[0] == '"' {
      var ps := StringSplit(t);
      n := StringNode(ps);
    } else if t[0] == 't' {
      n := TrueNode;
    } else if t[0] == 'f' {
      n := FalseNode;
    } else if t[0] == 'n' {
      n := NullNode;
    } else {
      n := NumberSplit(t);
      NumberSize(n);
    }
  }

  lemma NumberSize(n: Node)
    requires n.NumberNode?
    ensures Count(n) == 1 && Depth(n) == 0
  {}

  lemma {:induction false} ValueSound(t: string, depth: nat, used: nat, o: Options) returns (n: Node)
    requires PValue(t, depth, used, o).Good?
    ensures ReadAs(t, depth, used, o, n, PValue(t, depth, used, o))
    decreases |t|, 0
  {
    hide Scalar, PArray, PObject;
    if t[0] == '{' {
      n := ObjectSound(t, depth, used + 1, o);
    } else if t[0] == '[' {
      n := ArraySound(t, depth, used + 1, o);
    } else {
      hide WF, Eval, Text;
      n := ScalarSplit(t);
    }
  }

  lemma {:induction false} ArraySound(t: string, depth: nat, used: nat, o: Options) returns (n: Node)
    requires t != "" && t[0] == '[' && PArray(t, depth, used, o).Good?
    requires depth <= o.maxDepth && 0 < used <= o.maxValues
    ensures ReadAs(t, depth, used - 1, o, n, PArray(t, depth, used, o))
    decreases |t| - 1, 2
  {
    hide PItems, SkipWs, WFItems;
    var ws := SkipWsSplit(t[1..]);
    var u := SkipWs(t[1..]);
    assert t == "[" + ws + u;
    if u != "" && u[0] == ']' {
      n := EmptyArray(ws);
    } else {
      var xs := ItemsSound(u, depth, used, o, []);
      n := FullArray(ws, xs);
      assert [] + EvalItems(xs) == EvalItems(xs);
      Regroup3("[" + ws, ItemsText(xs), PItems(u, depth, used, o, []).rest);
    }
  }

  predicate ItemsReadAs(t: string, depth: nat, used: nat, o: Options, items: seq<Value>,
                        xs: Items, r: Parsed<Value>) {
    && r.Good? && WFItems(xs) && r.value == Arr(items + EvalItems(xs)) && t == ItemsText(xs) + r.rest
    && r.used == used + ItemsCount(xs) && r.used <= o.maxValues
    && depth + 1 + ItemsDepth(xs) <= o.maxDepth
  }

  lemma {:induction false} ItemsSound(t: string, depth: nat, used: nat, o: Options, items: seq<Value>)
    returns (xs: Items)
    requires PItems(t, depth, used, o, items).Good?
    ensures ItemsReadAs(t, depth, used, o, items, xs, PItems(t, depth, used, o, items))
    decreases |t|, 1
  {
    hide PValue, SkipWs, WF, Eval, Text, Count, Depth;
    var v := PValue(t, depth + 1, used, o);
    var n := ValueSound(t, depth + 1, used, o);
    var after := SkipWsSplit(v.rest);
    var u := SkipWs(v.rest);
    if u[0] == ']' {
      xs := LastItem(n, after);
      assert t == Text(n) + after + "]" + u[1..];
    } else {
      var w := SkipWs(u[1..]);
      var next := SkipWsSplit(u[1..]);
      var more := ItemsSound(w, depth, v.used, o, items + [v.value]);
      xs := MoreItems(n, after, next, more);
      ItemsConcat(n, after, next, more, u, w, PItems(w, depth, v.used, o, items + [v.value]).rest);
      assert items + [v.value] + EvalItems(more) == items + EvalItems(xs);
    }
  }

  lemma ItemsConcat(n: Node, after: string, next: string, more: Items, u: string, w: string, rest: string)
    requires u != "" && u[0] == ',' && u[1..] == next + w && w == ItemsText(more) + rest
    ensures Text(n) + (after + u) == ItemsText(MoreItems(n, after, next, more)) + rest
  {
    hide Text;
    assert u == "," + next + w;
  }

  lemma {:induction false} ObjectSound(t: string, depth: nat, used: nat, o: Options) returns (n: Node)
    requires t != "" && t[0] == '{' && PObject(t, depth, used, o).Good?
    requires depth <= o.maxDepth && 0 < used <= o.maxValues
    ensures ReadAs(t, depth, used - 1, o, n, PObject(t, depth, used, o))
    decreases |t| - 1, 2
  {
    hide PMembers, SkipWs, WFMembers;
    var ws := SkipWsSplit(t[1..]);
    var u := SkipWs(t[1..]);
    assert t == "{" + ws + u;
    if u != "" && u[0] == '}' {
      n := EmptyObject(ws);
    } else {
      var no: map<string, Value> := map[];
      assert no.Keys == {};
      var ms := MembersSound(u, depth, used, o, no);
      n := FullObject(ws, ms);
      assert no + EvalMembers(ms, {}) == EvalMembers(ms, {});
      Regroup3("{" + ws, MembersText(ms), PMembers(u, depth, used, o, no).rest);
    }
  }

  predicate MembersReadAs(t: string, depth: nat, used: nat, o: Options, members: map<string, Value>,
                          ms: Members, r: Parsed<Value>) {
    && r.Good? && WFMembers(ms, members.Keys) && r.value == Obj(members + EvalMembers(ms, members.Keys))
    && t == MembersText(ms) + r.rest && r.used == used + MembersCount(ms) && r.used <= o.maxValues
    && depth + 1 + MembersDepth(ms) <= o.maxDepth
  }

  lemma KeySplit(t: string) returns (key: seq<Piece>, colon: Colon)
    requires Key(t).Token?
    ensures WFKey(key, colon) && Meaning(key) == Key(t).value && t == KeyText(key, colon) + Key(t).rest
  {
    hide String, SkipWs, Meaning, Quoted, WFPieces, IsBlank;
    key := StringSplit(t);
    var u := SkipWs(String(t).rest);
    var left := SkipWsSplit(String(t).rest);
    var right := SkipWsSplit(u[1..]);
    colon := Colon(left, right);
    assert t == Quoted(key) + left + ":" + right + SkipWs(u[1..]);
  }

  lemma {:induction false} MembersSound(t: string, depth: nat, used: nat, o: Options, members: map<string, Value>)
    returns (ms: Members)
    requires PMembers(t, depth, used, o, members).Good?
    ensures MembersReadAs(t, depth, used, o, members, ms, PMembers(t, depth, used, o, members))
    decreases |t|, 1
  {
    hide Key, PValue, SkipWs, WF, Eval, Text, Count, Depth, WFPieces, KeyText, Meaning;
    var key, colon := KeySplit(t);
    var k := Key(t);
    var v := PValue(k.rest, depth + 1, used, o);
    var n := ValueSound(k.rest, depth + 1, used, o);
    var after := SkipWsSplit(v.rest);
    var u := SkipWs(v.rest);
    var all := members[k.value := v.value];
    if u[0] == '}' {
      ms := LastMember(key, colon, n, after);
      assert t == KeyText(key, colon) + Text(n) + after + "}" + u[1..];
      assert all == members + EvalMembers(ms, members.Keys);
    } else {
      var w := SkipWs(u[1..]);
      var next := SkipWsSplit(u[1..]);
      var more := MembersSound(w, depth, v.used, o, all);
      ms := MoreMembers(key, colon, n, after, next, more);
      assert all.Keys == members.Keys + {Meaning(key)};
      MembersConcat(key, colon, n, after, next, more, u, w, PMembers(w, depth, v.used, o, all).rest);
      MergeMembers(members, k.value, v.value, EvalMembers(more, all.Keys));
    }
  }

  lemma MergeMembers(members: map<string, Value>, k: string, v: Value, more: map<string, Value>)
    requires k !in members && k !in more
    ensures members[k := v] + more == members + more[k := v]
  {}

  lemma MembersConcat(key: seq<Piece>, colon: Colon, n: Node, after: string, next: string, more: Members,
                      u: string, w: string, rest: string)
    requires u != "" && u[0] == ',' && u[1..] == next + w && w == MembersText(more) + rest
    ensures KeyText(key, colon) + (Text(n) + (after + u))
         == MembersText(MoreMembers(key, colon, n, after, next, more)) + rest
  {
    hide Text, KeyText;
    assert u == "," + next + w;
  }

  // ---- completeness: what is in the grammar is read as it stands --------------------------

  /** The first character of a value. */
  predicate ValueStart(t: string) {
    t != "" && !IsWs(t[0]) && t[0] != ']' && t[0] != '}' && t[0] != ','
  }

  lemma TextStart(n: Node, r: string)
    requires WF(n)
    ensures ValueStart(Text(n) + r)
  {
    hide IsFraction, IsExponent, WFItems, WFMembers, WFPieces, PiecesText, ItemsText, MembersText;
    var t := Text(n) + r;
    assert Text(n) != "" ==> t[0] == Text(n)[0];
  }

  predicate IsScalarNode(n: Node) {
    n.NullNode? || n.TrueNode? || n.FalseNode? || n.NumberNode? || n.StringNode?
  }

  lemma ScalarOver(n: Node, r: string)
    requires WF(n) && IsScalarNode(n) && Follow(r)
    ensures var t := Text(n) + r;
            t != "" && t[0] != '{' && t[0] != '[' && Scalar(t) == Token(Eval(n), r)
  {
    hide String, Number, Meaning, Quoted, WFPieces, NumberText, IsWhole, IsFraction, IsExponent;
    match n
    case NumberNode(m, w, f, e) => NumberOver(m, w, f, e, r);
    case StringNode(body) => StringOver(body, r);
    case NullNode => assert ("null" + r)[4..] == r;
    case TrueNode => assert ("true" + r)[4..] == r;
    case FalseNode => assert ("false" + r)[5..] == r;
  }

  predicate Room(depth: nat, d: nat, used: nat, c: nat, o: Options) {
    depth + d <= o.maxDepth && used + c <= o.maxValues
  }

  lemma {:induction false} ValueOver(n: Node, r: string, depth: nat, used: nat, o: Options)
    requires WF(n) && Follow(r) && Room(depth, Depth(n), used, Count(n), o)
    ensures PValue(Text(n) + r, depth, used, o) == Good(Eval(n), r, used + Count(n))
    decreases n, 1
  {
    hide Scalar, PArray, PObject, Text, Eval;
    CountPositive(n);
    if IsScalarNode(n) {
      ScalarOver(n, r);
    } else if n.EmptyArray? || n.FullArray? {
      ArrayOver(n, r, depth, used + 1, o);
    } else {
      ObjectOver(n, r, depth, used + 1, o);
    }
  }

  lemma CountPositive(n: Node)
    ensures Count(n) > 0 && (IsScalarNode(n) ==> Count(n) == 1)
  {}

  lemma {:induction false} ArrayOver(n: Node, r: string, depth: nat, used: nat, o: Options)
    requires (n.EmptyArray? || n.FullArray?) && WF(n) && used > 0 && Room(depth, Depth(n), used - 1, Count(n), o)
    ensures var t := Text(n) + r;
            t != "" && t[0] == '[' && PArray(t, depth, used, o) == Good(Eval(n), r, used - 1 + Count(n))
    decreases n, 0
  {
    hide PItems, SkipWs;
    var t := Text(n) + r;
    match n
    case EmptyArray(ws) =>
      SkipWsOver(ws, "]" + r);
      assert t[1..] == ws + ("]" + r) && ("]" + r)[1..] == r;
    case FullArray(ws, xs) =>
      ItemsStart(xs, r);
      SkipWsOver(ws, ItemsText(xs) + r);
      assert t[1..] == ws + (ItemsText(xs) + r);
      ItemsOver(xs, r, depth, used, o, []);
      assert [] + EvalItems(xs) == EvalItems(xs);
  }

  lemma ItemsStart(xs: Items, r: string)
    requires WFItems(xs)
    ensures ValueStart(ItemsText(xs) + r)
  {
    hide Text, WF;
    TextStart(xs.item, ItemsText(xs)[|Text(xs.item)|..] + r);
    assert ItemsText(xs) + r == Text(xs.item) + (ItemsText(xs)[|Text(xs.item)|..] + r);
  }

  lemma {:induction false} ItemsOver(xs: Items, r: string, depth: nat, used: nat, o: Options, items: seq<Value>)
    requires WFItems(xs) && Room(depth + 1, ItemsDepth(xs), used, ItemsCount(xs), o)
    ensures PItems(ItemsText(xs) + r, depth, used, o, items)
         == Good(Arr(items + EvalItems(xs)), r, used + ItemsCount(xs))
    decreases xs, 2
  {
    hide PValue, SkipWs, WF, Eval, Text, Count, Depth;
    var t := ItemsText(xs) + r;
    match xs
    case LastItem(item, after) =>
      var u := "]" + r;
      assert t == Text(item) + (after + u) && u[1..] == r;
      FollowBlank(after, u);
      ValueOver(item, after + u, depth + 1, used, o);
      SkipWsOver(after, u);
    case MoreItems(item, after, next, rest) =>
      var w := ItemsText(rest) + r;
      var u := "," + (next + w);
      assert t == Text(item) + (after + u) && u[1..] == next + w;
      FollowBlank(after, u);
      ValueOver(item, after + u, depth + 1, used, o);
      SkipWsOver(after, u);
      ItemsStart(rest, r);
      SkipWsOver(next, w);
      ItemsOver(rest, r, depth, used + Count(item), o, items + [Eval(item)]);
      assert items + [Eval(item)] + EvalItems(rest) == items + EvalItems(xs);
  }

  lemma FollowBlank(ws: string, u: string)
    requires IsBlank(ws) && Follow(u)
    ensures Follow(ws + u)
  {
    if ws == "" { assert ws + u == u; }
  }

  lemma {:induction false} ObjectOver(n: Node, r: string, depth: nat, used: nat, o: Options)
    requires (n.EmptyObject? || n.FullObject?) && WF(n) && used > 0 && Room(depth, Depth(n), used - 1, Count(n), o)
    ensures var t := Text(n) + r;
            t != "" && t[0] == '{' && PObject(t, depth, used, o) == Good(Eval(n), r, used - 1 + Count(n))
    decreases n, 0
  {
    hide PMembers, PObject, WFMembers, EvalMembers;
    match n
    case EmptyObject(ws) =>
      EmptyObjectOver(ws, r, depth, used, o);
    case FullObject(ws, ms) =>
      var no: map<string, Value> := map[];
      assert no.Keys == {};
      MembersOver(ms, r, depth, used, o, no);
      assert no + EvalMembers(ms, {}) == EvalMembers(ms, {});
      BraceOver(ws, ms, r, depth, used, o);
  }

  lemma EmptyObjectOver(ws: string, r: string, depth: nat, used: nat, o: Options)
    requires IsBlank(ws)
    ensures PObject("{" + ws + "}" + r, depth, used, o) == Good(Obj(map[]), r, used)
  {
    hide PMembers, SkipWs;
    var t := "{" + ws + "}" + r;
    SkipWsOver(ws, "}" + r);
    assert t[1..] == ws + ("}" + r) && ("}" + r)[1..] == r;
  }

  lemma BraceOver(ws: string, ms: Members, r: string, depth: nat, used: nat, o: Options)
    requires IsBlank(ws)
    ensures PObject("{" + ws + MembersText(ms) + r, depth, used, o)
         == PMembers(MembersText(ms) + r, depth, used, o, map[])
  {
    hide PMembers, SkipWs, MembersText;
    var t := "{" + ws + MembersText(ms) + r;
    MembersStart(ms, r);
    SkipWsOver(ws, MembersText(ms) + r);
    assert t[1..] == ws + (MembersText(ms) + r);
  }

  lemma MembersStart(ms: Members, r: string)
    ensures MembersText(ms) + r != "" && (MembersText(ms) + r)[0] == '"'
  {
    hide Text, PiecesText;
    assert KeyText(ms.key, ms.colon)[0] == '"';
    assert MembersText(ms)[0] == '"';
  }

  lemma KeyOver(key: seq<Piece>, colon: Colon, r: string)
    requires WFKey(key, colon) && ValueStart(r)
    ensures Key(KeyText(key, colon) + r) == Token(Meaning(key), r)
  {
    hide String, SkipWs, Meaning, Quoted, WFPieces, IsBlank;
    var u := ":" + (colon.right + r);
    assert KeyText(key, colon) + r == Quoted(key) + (colon.left + u) && u[1..] == colon.right + r;
    StringOver(key, colon.left + u);
    SkipWsOver(colon.left, u);
    SkipWsOver(colon.right, r);
  }

  /** One member up to the comma or brace that `u` starts with. */
  lemma MemberOver(key: seq<Piece>, colon: Colon, value: Node, after: string, u: string,
                   depth: nat, used: nat, o: Options)
    requires WFKey(key, colon) && WF(value) && IsBlank(after) && u != "" && (u[0] == ',' || u[0] == '}')
    requires Room(depth, Depth(value), used, Count(value), o)
    requires PValue(Text(value) + (after + u), depth, used, o) == Good(Eval(value), after + u, used + Count(value))
    ensures var k := Key(KeyText(key, colon) + (Text(value) + (after + u)));
            && k.Token? && k.value == Meaning(key)
            && PValue(k.rest, depth, used, o) == Good(Eval(value), after + u, used + Count(value))
    ensures SkipWs(after + u) == u
  {
    hide Key, PValue, WF, Eval, Text, Count, Depth, WFPieces, KeyText, Meaning;
    TextStart(value, after + u);
    KeyOver(key, colon, Text(value) + (after + u));
    SkipWsOver(after, u);
  }

  lemma MembersStep(t: string, depth: nat, used: nat, o: Options, members: map<string, Value>,
                    v: Value, u: string, next: nat)
    requires Key(t).Token? && Key(t).value !in members
    requires var p := PValue(Key(t).rest, depth + 1, used, o);
             p.Good? && p.value == v && p.used == next && SkipWs(p.rest) == u && u != ""
    ensures var all := members[Key(t).value := v];
            && (u[0] == '}' ==> PMembers(t, depth, used, o, members) == Good(Obj(all), u[1..], next))
            && (u[0] == ',' ==>
                PMembers(t, depth, used, o, members) == PMembers(SkipWs(u[1..]), depth, next, o, all))
  {
    hide Key, PValue, SkipWs;
  }

  lemma MoreMembersText(key: seq<Piece>, colon: Colon, value: Node, after: string, next: string,
                        rest: Members, r: string)
    ensures var u := "," + (next + (MembersText(rest) + r));
            && MembersText(MoreMembers(key, colon, value, after, next, rest)) + r
               == KeyText(key, colon) + (Text(value) + (after + u))
            && u[1..] == next + (MembersText(rest) + r)
  {
    hide Text, KeyText;
  }

  lemma {:induction false} MembersOver(ms: Members, r: string, depth: nat, used: nat, o: Options,
                                       members: map<string, Value>)
    requires WFMembers(ms, members.Keys) && Room(depth + 1, MembersDepth(ms), used, MembersCount(ms), o)
    ensures PMembers(MembersText(ms) + r, depth, used, o, members)
         == Good(Obj(members + EvalMembers(ms, members.Keys)), r, used + MembersCount(ms))
    decreases ms, 2
  {
    hide Key, PValue, PMembers, SkipWs, WF, Eval, Text, Count, Depth, WFPieces, KeyText, Meaning;
    var t := MembersText(ms) + r;
    var all := members[Meaning(ms.key) := Eval(ms.value)];
    match ms
    case LastMember(key, colon, value, after) =>
      var u := "}" + r;
      assert t == KeyText(key, colon) + (Text(value) + (after + u)) && u[1..] == r;
      FollowBlank(after, u);
      ValueOver(value, after + u, depth + 1, used, o);
      MemberOver(key, colon, value, after, u, depth + 1, used, o);
      MembersStep(t, depth, used, o, members, Eval(value), u, used + Count(value));
      assert all == members + EvalMembers(ms, members.Keys);
    case MoreMembers(key, colon, value, after, next, rest) =>
      var w := MembersText(rest) + r;
      var u := "," + (next + w);
      MoreMembersText(key, colon, value, after, next, rest, r);
      FollowBlank(after, u);
      ValueOver(value, after + u, depth + 1, used, o);
      MemberOver(key, colon, value, after, u, depth + 1, used, o);
      MembersStep(t, depth, used, o, members, Eval(value), u, used + Count(value));
      MembersStart(rest, r);
      SkipWsOver(next, w);
      assert all.Keys == members.Keys + {Meaning(key)};
      MembersOver(rest, r, depth, used + Count(value), o, all);
      MergeMembers(members, Meaning(key), Eval(value), EvalMembers(rest, all.Keys));
  }

  // ---- whole texts -----------------------------------------------------------------------

  lemma ParseSound(input: string, o: Options) returns (d: Document)
    requires Parse(input, o).Some?
    ensures WFDocument(d) && DocumentText(d) == input && Within(d, o) && Parse(input, o) == Some(Eval(d.root))
  {
    hide PValue, SkipWs, WF, Eval, Text, Count, Depth, IsBlank;
    var t := StripBom(input);
    var bom := BOM <= input;
    var u := SkipWs(t);
    var before := SkipWsSplit(t);
    var v := PValue(u, 0, 0, o);
    var n := ValueSound(u, 0, 0, o);
    var after := SkipWsSplit(v.rest);
    d := Document(bom, before, n, after);
    assert input == (if bom then BOM else "") + t;
    assert t == before + (Text(n) + after);
    assert DocumentText(d) == (if bom then BOM else "") + (before + (Text(n) + after));
  }

  lemma NoBom(ws: string, n: Node, after: string)
    requires IsBlank(ws) && WF(n)
    ensures !(BOM <= ws + (Text(n) + after))
  {
    hide WF, Text;
    var t := ws + (Text(n) + after);
    BlankOrValue(n, after);
    assert t[0] == if ws == "" then (Text(n) + after)[0] else ws[0];
    assert BOM[0] != t[0];
  }

  /** A value starts with an ASCII character. */
  lemma BlankOrValue(n: Node, after: string)
    requires WF(n)
    ensures Text(n) + after != "" && Byte((Text(n) + after)[0]) < 0x80
  {
    hide IsFraction, IsExponent, WFItems, WFMembers, WFPieces, PiecesText, ItemsText, MembersText;
    var t := Text(n) + after;
    assert Text(n) != "" ==> t[0] == Text(n)[0];
  }

  lemma ParseComplete(d: Document, o: Options)
    requires WFDocument(d) && Within(d, o)
    ensures Parse(DocumentText(d), o) == Some(Eval(d.root))
  {
    hide PValue, SkipWs, WF, Eval, Text, Count, Depth, IsBlank;
    var input := DocumentText(d);
    var t := d.before + (Text(d.root) + d.after);
    assert input == (if d.bom then BOM else "") + t;
    NoBom(d.before, d.root, d.after);
    assert StripBom(input) == t;
    TextStart(d.root, d.after);
    SkipWsOver(d.before, Text(d.root) + d.after);
    BlankFollow(d.after);
    ValueOver(d.root, d.after, 0, 0, o);
    SkipWsOver(d.after, "");
    assert d.after + "" == d.after;
  }

  lemma BlankFollow(ws: string)
    requires IsBlank(ws)
    ensures Follow(ws)
  {}

  /** `v` is the meaning of `input` as a JSON text within the limits. */
  ghost predicate Derives(input: string, o: Options, v: Value) {
    exists d: Document :: WFDocument(d) && DocumentText(d) == input && Within(d, o) && Eval(d.root) == v
  }

  /** The parser gives a value exactly for the texts of the grammar within the limits, and it is
      the value the grammar gives; so no text has two meanings. */
  lemma ParseExact(input: string, o: Options, v: Value)
    ensures Parse(input, o) == Some(v) <==> Derives(input, o, v)
  {
    hide Parse, WF, DocumentText, Within, Eval;
    if Parse(input, o) == Some(v) {
      var d := ParseSound(input, o);
    }
    if Derives(input, o, v) {
      var d: Document :| WFDocument(d) && DocumentText(d) == input && Within(d, o) && Eval(d.root) == v;
      ParseComplete(d, o);
    }
  }
}
