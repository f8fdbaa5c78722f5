/** What the parser's limits and checks mean for the value it gives: the value counter is the
    number of values in the result, and every text in the result is well-formed UTF-8. */
module JsonValues {
  import opened Texts
  import opened Utf8
  import opened Json
  import opened JsonGrammar
  import opened JsonTokens
  import opened JsonExact

  // ---- counting -------------------------------------------------------------------------

  /** How many values there are in a value, itself included. */
  ghost function Nodes(v: Value): nat
    decreases v, 0
  {
    match v
    case Arr(items) => 1 + SumItems(v, |items|)
    case Obj(members) => 1 + SumKeys(v, members.Keys)
    case _ => 1
  }

  ghost function SumItems(v: Value, n: nat): nat
    requires v.Arr? && n <= |v.items|
    decreases v, 0, n
  {
    if n == 0 then 0 else SumItems(v, n - 1) + Nodes(v.items[n - 1])
  }

  ghost function SumKeys(v: Value, keys: set<string>): nat
    requires v.Obj? && keys <= v.members.Keys
    decreases v, 0, keys
  {
    if keys == {} then 0 else
    SumKeys(v, keys - {Pick(keys)}) + Nodes(v.members[Pick(keys)])
  }

  ghost function Pick(keys: set<string>): (k: string)
    requires keys != {}
    ensures k in keys
  {
    var k :| k in keys; k
  }

  lemma {:induction false} SumKeysAny(v: Value, keys: set<string>, k: string)
    requires v.Obj? && keys <= v.members.Keys && k in keys
    ensures SumKeys(v, keys) == SumKeys(v, keys - {k}) + Nodes(v.members[k])
    decreases keys
  {
    hide Nodes;
    var j := Pick(keys);
    if j != k {
      SumKeysAny(v, keys - {j}, k);
      SumKeysAny(v, keys - {k}, j);
      assert keys - {j} - {k} == keys - {k} - {j};
    }
  }

  lemma {:induction false} SumKeysSame(v: Value, w: Value, keys: set<string>)
    requires v.Obj? && w.Obj? && keys <= v.members.Keys && keys <= w.members.Keys
    requires forall k | k in keys :: v.members[k] == w.members[k]
    ensures SumKeys(v, keys) == SumKeys(w, keys)
    decreases keys
  {
    hide Nodes;
    if keys != {} { SumKeysSame(v, w, keys - {Pick(keys)}); }
  }

  lemma NodesOfInsert(m: map<string, Value>, k: string, x: Value)
    requires k !in m
    ensures Nodes(Obj(m[k := x])) == Nodes(Obj(m)) + Nodes(x)
  {
    var v, w := Obj(m), Obj(m[k := x]);
    assert w.members.Keys == m.Keys + {k};
    SumKeysAny(w, w.members.Keys, k);
    assert w.members.Keys - {k} == m.Keys;
    SumKeysSame(v, w, m.Keys);
  }

  lemma {:induction false} SumItemsCons(x: Value, xs: seq<Value>, n: nat)
    requires n <= |xs|
    ensures SumItems(Arr([x] + xs), n + 1) == Nodes(x) + SumItems(Arr(xs), n)
  {
    hide Nodes;
    if n > 0 { SumItemsCons(x, xs, n - 1); }
  }

  lemma NodesOfCons(x: Value, xs: seq<Value>)
    ensures Nodes(Arr([x] + xs)) == Nodes(x) + Nodes(Arr(xs))
  {
    SumItemsCons(x, xs, |xs|);
  }

  lemma NodesOfEmpty()
    ensures Nodes(Arr([])) == 1 && Nodes(Obj(map[])) == 1
  {
    var none: map<string, Value> := map[];
    assert none.Keys == {};
  }

  lemma NodesOfOne(x: Value, k: string)
    ensures Nodes(Arr([x])) == 1 + Nodes(x) && Nodes(Obj(map[k := x])) == 1 + Nodes(x)
  {
    hide Nodes;
    var none: map<string, Value> := map[];
    NodesOfEmpty();
    NodesOfCons(x, []);
    assert [x] + [] == [x];
    NodesOfInsert(none, k, x);
    assert none[k := x] == map[k := x];
  }

  /** The grammar's count of a tree is the number of values in what it means. */
  lemma {:induction false} CountIsNodes(n: Node)
    requires WF(n)
    ensures Nodes(Eval(n)) == Count(n)
    decreases n, 0
  {
    match n
    case FullArray(_, items) => ItemsCountIsNodes(items);
    case FullObject(_, members) => MembersCountIsNodes(members, {});
    case EmptyArray(_) => NodesOfEmpty();
    case EmptyObject(_) => NodesOfEmpty();
    case _ =>
  }

  lemma {:induction false} ItemsCountIsNodes(xs: Items)
    requires WFItems(xs)
    ensures Nodes(Arr(EvalItems(xs))) == 1 + ItemsCount(xs)
    decreases xs, 1
  {
    hide Nodes, Eval, WF, Count;
    CountIsNodes(xs.item);
    match xs
    case LastItem(item, _) => NodesOfOne(Eval(item), "");
    case MoreItems(item, _, _, rest) =>
      ItemsCountIsNodes(rest);
      NodesOfCons(Eval(item), EvalItems(rest));
  }

  lemma {:induction false} MembersCountIsNodes(ms: Members, seen: set<string>)
    requires WFMembers(ms, seen)
    ensures Nodes(Obj(EvalMembers(ms, seen))) == 1 + MembersCount(ms)
    decreases ms, 1
  {
    hide Nodes, Eval, WF, Count, WFPieces, Meaning;
    CountIsNodes(ms.value);
    match ms
    case LastMember(key, _, value, _) => NodesOfOne(Eval(value), Meaning(key));
    case MoreMembers(key, _, value, _, _, rest) =>
      MembersCountIsNodes(rest, seen + {Meaning(key)});
      NodesOfInsert(EvalMembers(rest, seen + {Meaning(key)}), Meaning(key), Eval(value));
  }

  /** On success the value counter is the number of values in the result, so the limit on it
      bounds the size of every value the parser gives. */
  lemma CounterExact(input: string, o: Options)
    requires Parse(input, o).Some?
    ensures PValue(SkipWs(StripBom(input)), 0, 0, o).used == Nodes(Parse(input, o).value) <= o.maxValues
  {
    hide Nodes, Eval, WF, Count, SkipWs, PValue;
    var n := ValueSound(SkipWs(StripBom(input)), 0, 0, o);
    CountIsNodes(n);
  }

  // ---- texts ----------------------------------------------------------------------------

  /** Every string and key in a value is well-formed UTF-8. */
  predicate AllUtf8(v: Value) {
    match v
    case Str(s) => WellFormed(s)
    case Arr(items) => forall i | 0 <= i < |items| :: AllUtf8(items[i])
    case Obj(members) => forall k | k in members :: WellFormed(k) && AllUtf8(members[k])
    case _ => true
  }

  lemma {:induction false} EvalUtf8(n: Node)
    requires WF(n)
    ensures AllUtf8(Eval(n))
    decreases n, 0
  {
    hide WellFormed, Meaning, WFPieces;
    match n
    case StringNode(body) => MeaningWellFormed(body);
    case FullArray(_, items) => ItemsUtf8(items);
    case FullObject(_, members) => MembersUtf8(members, {});
    case _ =>
  }

  lemma {:induction false} ItemsUtf8(xs: Items)
    requires WFItems(xs)
    ensures AllUtf8(Arr(EvalItems(xs)))
    decreases xs, 1
  {
    hide Eval, WF;
    EvalUtf8(xs.item);
    if xs.MoreItems? { ItemsUtf8(xs.rest); }
  }

  lemma {:induction false} MembersUtf8(ms: Members, seen: set<string>)
    requires WFMembers(ms, seen)
    ensures AllUtf8(Obj(EvalMembers(ms, seen)))
    decreases ms, 1
  {
    hide Eval, WF, WFPieces, Meaning, WellFormed;
    MeaningWellFormed(ms.key);
    EvalUtf8(ms.value);
    if ms.MoreMembers? { MembersUtf8(ms.rest, seen + {Meaning(ms.key)}); }
  }

  /** No text in a parsed value is ill-formed, however it was escaped in the input. */
  lemma ParsedIsUtf8(input: string, o: Options)
    requires Parse(input, o).Some?
    ensures AllUtf8(Parse(input, o).value)
  {
    hide Parse, Eval, WF, DocumentText, Within, AllUtf8;
    var d := ParseSound(input, o);
    EvalUtf8(d.root);
  }

  // ---- numbers --------------------------------------------------------------------------

  /** `Number::AsUInt64`: the raw text of a number as an unsigned 64-bit integer. */
  function AsUInt64(raw: string): Option<nat> {
    if raw == "" || raw[0] == '-' || '.' in raw || 'e' in raw || 'E' in raw then None
    else if AllDigits(raw) && Texts.Value(raw) < TWO64 then Some(Texts.Value(raw))
    else None
  }

  lemma NotDigits(raw: string, c: char)
    requires c in raw && !IsDigit(c)
    ensures !AllDigits(raw)
  {
    var i :| 0 <= i < |raw| && raw[i] == c;
  }

  lemma MarkedNumber(m: string, w: string, f: string, e: string)
    requires IsMinus(m) && IsWhole(w) && IsFraction(f) && IsExponent(e) && (m != "" || f != "" || e != "")
    ensures NumberText(m, w, f, e) != "" && NoInteger(NumberText(m, w, f, e))
  {
    var raw := NumberText(m, w, f, e);
    if m != "" {
      assert raw[0] == '-';
    } else if f != "" {
      assert f[0] in raw;
      NotDigits(raw, '.');
    } else {
      assert e[0] in raw;
      NotDigits(raw, e[0]);
    }
  }

  predicate NoInteger(raw: string) { AsUInt64(raw).None? && !AllDigits(raw) }

  lemma CanonicalInteger(w: string, k: nat)
    requires Canonical(w)
    ensures AsUInt64(w) == Some(k) <==> w == Decimal(k) && k < TWO64
  {
    ValueOfDecimal(k);
    DecimalOfValue(w);
    hide Texts.Value, Decimal;
    assert AsUInt64(w) == if Texts.Value(w) < TWO64 then Some(Texts.Value(w)) else None;
  }

  /** On a number of the grammar the conversion succeeds exactly for the decimal numerals of the
      integers below 2^64: no sign, fraction or exponent, and no second spelling. */
  lemma AsUInt64Exact(n: Node, k: nat)
    requires n.NumberNode? && WF(n)
    ensures AsUInt64(Eval(n).raw) == Some(k) <==> Eval(n).raw == Decimal(k) && k < TWO64
  {
    hide AsUInt64, IsFraction, IsExponent, Decimal;
    var m, w, f, e := n.minus, n.whole, n.fraction, n.exponent;
    if m != "" || f != "" || e != "" {
      hide NumberText, IsWhole, IsMinus;
      MarkedNumber(m, w, f, e);
    } else {
      assert NumberText(m, w, f, e) == w;
      CanonicalInteger(w, k);
    }
  }

  /** A number that is written with digits only and has 64 bits. */
  predicate Numeral(v: Value, k: nat) { v.Num? && v.raw != "" && AllDigits(v.raw) && Texts.Value(v.raw) == k < TWO64 }

  lemma NumeralExactly(v: Value, k: nat)
    ensures (v.Num? && AsUInt64(v.raw) == Some(k)) <==> Numeral(v, k)
  {
    if v.Num? && AllDigits(v.raw) && v.raw != "" { assert IsDigit(v.raw[0]); }
  }

  lemma SameKeys(keys: set<string>, m: map<string, Value>)
    requires keys <= m.Keys && |keys| == |m|
    ensures m.Keys == keys
  {
    var rest := m.Keys - keys;
    assert m.Keys == keys + rest && |m.Keys| == |keys| + |rest|;
    assert |m.Keys| == |m|;
  }
}
