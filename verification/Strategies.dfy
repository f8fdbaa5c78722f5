/** Strategy argument templates: the in-place replacements and when they are a substitution. */
module Strategies {
  import opened Texts
  import opened Configuration

  // ---- ReplaceAll ------------------------------------------------------------------------------

  /** Every occurrence of `from`, left to right, replaced. */
  function Replace(s: string, from: string, to: string): string
    requires from != ""
    decreases |s|
  {
    if s == "" then ""
    else if from <= s then to + Replace(s[|from|..], from, to)
    else [s[0]] + Replace(s[1..], from, to)
  }

  /** Where `std::wstring::find(from, p)` finds its text; the length if nowhere. */
  function FindText(s: string, from: string, p: nat): (r: nat)
    requires p <= |s| && from != ""
    ensures p <= r <= |s| && (r < |s| ==> from <= s[r..])
    ensures forall q | p <= q < r :: !(from <= s[q..])
    decreases |s| - p
  {
    if p == |s| || from <= s[p..] then p else FindText(s, from, p + 1)
  }

  lemma ReplaceSkip(s: string, from: string, to: string, p: nat)
    requires from != "" && p < |s| && !(from <= s[p..])
    ensures Replace(s[p..], from, to) == [s[p]] + Replace(s[p + 1..], from, to)
  {
    assert s[p..][1..] == s[p + 1..];
  }

  /** What comes before the next occurrence is left alone. */
  lemma {:induction false} ReplaceUpTo(s: string, from: string, to: string, p: nat, r: nat)
    requires from != "" && p <= r <= |s| && forall q | p <= q < r :: !(from <= s[q..])
    ensures Replace(s[p..], from, to) == s[p..r] + Replace(s[r..], from, to)
    decreases r - p
  {
    hide Replace;
    if p < r {
      ReplaceSkip(s, from, to, p);
      ReplaceUpTo(s, from, to, p + 1, r);
      assert s[p..r] == [s[p]] + s[p + 1..r];
    } else {
      assert s[p..r] == "" && "" + Replace(s[r..], from, to) == Replace(s[r..], from, to);
    }
  }

  lemma ReplaceHere(s: string, from: string, to: string, p: nat)
    requires from != "" && p < |s| && from <= s[p..]
    ensures p + |from| <= |s| && Replace(s[p..], from, to) == to + Replace(s[p + |from|..], from, to)
  {
    assert s[p..][|from|..] == s[p + |from|..];
  }

  lemma NothingLeft(from: string, to: string)
    requires from != ""
    ensures Replace("", from, to) == ""
  {}

  /** The state of the loop of `ReplaceAll`: what is before `pos` is done. */
  ghost predicate Replacing(s: string, pos: nat, text: string, from: string, to: string)
    requires from != ""
  {
    pos <= |s| && s[..pos] + Replace(s[pos..], from, to) == Replace(text, from, to)
  }

  lemma ReplacingStep(s: string, pos: nat, text: string, from: string, to: string)
    requires from != "" && Replacing(s, pos, text, from, to)
    ensures var p := FindText(s, from, pos);
            if p == |s| then s == Replace(text, from, to)
            else p + |from| <= |s| && Replacing(s[..p] + to + s[p + |from|..], p + |to|, text, from, to)
  {
    hide Replace;
    var p := FindText(s, from, pos);
    ReplaceUpTo(s, from, to, pos, p);
    assert s[..pos] + s[pos..p] == s[..p];
    if p == |s| {
      NothingLeft(from, to);
      assert s[p..] == "" && s[..p] == s;
    } else {
      ReplaceHere(s, from, to, p);
      Spliced(s[..p], to, s[p + |from|..]);
      Regroup4(s[..pos], s[pos..p], to, Replace(s[p + |from|..], from, to));
    }
  }

  lemma Spliced(a: string, b: string, c: string)
    ensures (a + b + c)[..|a| + |b|] == a + b && (a + b + c)[|a| + |b|..] == c
  {}

  /** The loop of `ReplaceAll`, which replaces in place and goes on after what it put in. */
  method ReplaceAll(text: string, from: string, to: string) returns (s: string)
    ensures s == if from == "" then text else Replace(text, from, to)
  {
    s := text;
    if from == "" { return; }
    hide Replacing, Replace;
    var pos: nat, left: nat := 0, |text|;
    ReplacingStarts(text, from, to);
    while true
      invariant Replacing(s, pos, text, from, to) && pos <= |s| && left == |s| - pos
      decreases left
    {
      var p := FindText(s, from, pos);
      ReplacingStep(s, pos, text, from, to);
      if p == |s| { break; }
      s := s[..p] + to + s[p + |from|..];
      pos := p + |to|;
      left := |s| - pos;
    }
  }

  lemma ReplacingStarts(text: string, from: string, to: string)
    requires from != ""
    ensures Replacing(text, 0, text, from, to)
  {
    assert text[0..] == text && text[..0] == "";
    assert "" + Replace(text, from, to) == Replace(text, from, to);
  }

  // ---- templates --------------------------------------------------------------------------------

  /** A token cut at its percent signs, paired left to right: text outside the pairs, and what each
      pair encloses. */
  datatype Template = End(lit: string) | Hole(lit: string, content: string, rest: Template)

  function Text(t: Template): string {
    match t
    case End(l) => l
    case Hole(l, c, r) => l + ("%" + (c + ("%" + Text(r))))
  }

  predicate NoPercent(s: string) { '%' !in s }

  /** No percent sign inside the parts. */
  predicate Cut(t: Template) {
    match t
    case End(l) => NoPercent(l)
    case Hole(l, c, r) => NoPercent(l) && NoPercent(c) && Cut(r)
  }

  /** One pass of `ReplaceAll` for the placeholder of `name`, as it acts on the parts: `pre` has been
      put out since the last pair. */
  function Pass(t: Template, name: string, to: string, pre: string): Template
    decreases t, 0
  {
    match t
    case End(l) => End(pre + l)
    case Hole(l, c, r) => if c == name then Pass(r, name, to, pre + l + to) else Enclosed(pre + l, c, r, name, to)
  }

  /** The pass inside a pair that encloses `c`: the closing percent sign may open a placeholder
      that straddles the text up to the next pair. */
  function Enclosed(l: string, c: string, t: Template, name: string, to: string): Template
    decreases t, 1
  {
    if t.Hole? && t.lit == name then Enclosed(l, c + to + t.content, t.rest, name, to)
    else Hole(l, c, Pass(t, name, to, ""))
  }

  function Placeholder(name: string): (p: string)
    ensures p != ""
  {
    "%" + name + "%"
  }

  lemma {:induction false} LiteralKept(l: string, r: string, name: string, to: string)
    requires NoPercent(l)
    ensures Replace(l + r, Placeholder(name), to) == l + Replace(r, Placeholder(name), to)
  {
    if l == "" {
      assert l + r == r;
    } else {
      LiteralKept(l[1..], r, name, to);
      assert (l + r)[1..] == l[1..] + r && (l + r)[0] == l[0];
      assert l[0] in l;
    }
  }

  /** A placeholder stands at a percent sign exactly when the text up to the next percent sign is
      its name. */
  lemma StandsAt(c: string, rest: string, name: string)
    requires NoPercent(c) && NoPercent(name)
    ensures Placeholder(name) <= "%" + (c + ("%" + rest)) <==> c == name
  {
    var s, f := "%" + (c + ("%" + rest)), Placeholder(name);
    NextPercent(s, c, rest);
    NextPercent(f, name, "");
    if c == name { assert s == f + rest; }
    if f <= s {
      assert f == s[..|f|];
      SameNext(s, |f|);
      assert forall i | 0 <= i < |name| :: name[i] == f[i + 1] == s[i + 1] == c[i];
    }
  }

  lemma NextPercent(s: string, c: string, rest: string)
    requires s == "%" + (c + ("%" + rest)) && NoPercent(c)
    ensures Find(s, '%', 1) == |c| + 1
  {
    assert s[|c| + 1] == '%' && forall i | 0 <= i < |c| :: s[i + 1] == c[i];
  }

  lemma SameNext(s: string, n: nat)
    requires 2 <= n <= |s| && Find(s[..n], '%', 1) < n
    ensures Find(s, '%', 1) == Find(s[..n], '%', 1)
  {
    var a := Find(s[..n], '%', 1);
    assert s[a] == s[..n][a] && forall i | 1 <= i < a :: s[i] == s[..n][i];
  }

  lemma NotPrefix(f: string, s: string, i: nat)
    requires i < |f| && (i >= |s| || s[i] != f[i])
    ensures !(f <= s)
  {}

  lemma LastPercent(l: string, name: string)
    requires NoPercent(l) && NoPercent(name)
    ensures !(Placeholder(name) <= "%" + l)
  {
    var s, f := "%" + l, Placeholder(name);
    assert f[|name| + 1] == '%' && forall i | 0 < i < |s| :: s[i] == l[i - 1];
    NotPrefix(f, s, |name| + 1);
  }

  /** A percent sign where no placeholder stands. */
  lemma PercentKept(r: string, name: string, to: string)
    requires !(Placeholder(name) <= "%" + r)
    ensures Replace("%" + r, Placeholder(name), to) == "%" + Replace(r, Placeholder(name), to)
  {
    assert ("%" + r)[1..] == r;
  }

  lemma PercentReplaced(r: string, name: string, to: string)
    ensures var s := "%" + (name + ("%" + r));
            Replace(s, Placeholder(name), to) == to + Replace(r, Placeholder(name), to)
  {
    var s := "%" + (name + ("%" + r));
    assert s == Placeholder(name) + r;
    assert s[|Placeholder(name)|..] == r;
  }

  lemma {:induction false} EnclosedExact(l: string, c: string, t: Template, name: string, to: string)
    requires NoPercent(name) && Cut(t)
    ensures l + ("%" + (c + Replace("%" + Text(t), Placeholder(name), to))) == Text(Enclosed(l, c, t, name, to))
    decreases t, 1
  {
    hide Replace, Placeholder, NoPercent;
    if t.End? {
      LastPercent(t.lit, name);
      PercentKept(t.lit, name, to);
      PassExact(t, name, to, "");
      EmptyFirst(Replace(t.lit, Placeholder(name), to));
    } else {
      var tail := "%" + Text(t.rest);
      StandsAt(t.lit, t.content + tail, name);
      if t.lit == name {
        PercentReplaced(t.content + tail, name, to);
        LiteralKept(t.content, tail, name, to);
        EnclosedExact(l, c + to + t.content, t.rest, name, to);
        Regroup4(c, to, t.content, Replace(tail, Placeholder(name), to));
      } else {
        PercentKept(Text(t), name, to);
        PassExact(t, name, to, "");
        EmptyFirst(Replace(Text(t), Placeholder(name), to));
      }
    }
  }

  lemma EmptyFirst(s: string)
    ensures "" + s == s
  {}

  /** The pass over the parts is `ReplaceAll` on the text, for every token whose percent signs
      pair up. */
  lemma {:induction false} PassExact(t: Template, name: string, to: string, pre: string)
    requires NoPercent(name) && Cut(t)
    ensures pre + Replace(Text(t), Placeholder(name), to) == Text(Pass(t, name, to, pre))
    decreases t, 0
  {
    hide Replace, Placeholder, NoPercent;
    match t
    case End(l) =>
      LiteralEnd(l, name, to);
    case Hole(l, c, r) =>
      var tail := "%" + Text(r);
      LiteralKept(l, "%" + (c + tail), name, to);
      StandsAt(c, Text(r), name);
      if c == name {
        PercentReplaced(Text(r), name, to);
        PassExact(r, name, to, pre + l + to);
        Regroup4(pre, l, to, Replace(Text(r), Placeholder(name), to));
      } else {
        PercentKept(c + tail, name, to);
        LiteralKept(c, tail, name, to);
        EnclosedExact(pre + l, c, r, name, to);
        Regroup3(pre, l, "%" + (c + Replace(tail, Placeholder(name), to)));
      }
  }

  lemma LiteralEnd(l: string, name: string, to: string)
    requires NoPercent(l)
    ensures Replace(l, Placeholder(name), to) == l
  {
    LiteralKept(l, "", name, to);
    assert l + "" == l;
  }

  // ---- the six passes ------------------------------------------------------------------------------

  const NAMES: seq<string> := ["BIN", "LISTS", "USER_LISTS", "GAME_TCP", "GAME_UDP", "GAME_BOTH"]

  /** The first k passes, in the order of the source. */
  function Passes(s: string, values: seq<string>, k: nat): string
    requires k <= |NAMES| == |values|
  {
    if k == 0 then s else Replace(Passes(s, values, k - 1), Placeholder(NAMES[k - 1]), values[k - 1])
  }

  function Staged(t: Template, values: seq<string>, k: nat): Template
    requires k <= |NAMES| == |values|
  {
    if k == 0 then t else Pass(Staged(t, values, k - 1), NAMES[k - 1], values[k - 1], "")
  }

  predicate PercentFree(values: seq<string>) { forall i | 0 <= i < |values| :: NoPercent(values[i]) }

  lemma NamesAreNames()
    ensures |NAMES| == 6 && PercentFree(NAMES)
    ensures forall i | 0 <= i < |NAMES| :: NAMES[i] != "" && forall j | 0 <= j < |NAMES[i]| :: IsNameChar(NAMES[i][j])
  {}

  predicate IsNameChar(c: char) { 'A' <= c <= 'Z' || c == '_' }

  lemma {:induction false} CutPass(t: Template, name: string, to: string, pre: string)
    requires Cut(t) && NoPercent(to) && NoPercent(pre)
    ensures Cut(Pass(t, name, to, pre))
    decreases t, 0
  {
    if t.Hole? {
      if t.content == name { CutPass(t.rest, name, to, pre + t.lit + to); } else { CutEnclosed(pre + t.lit, t.content, t.rest, name, to); }
    }
  }

  lemma {:induction false} CutEnclosed(l: string, c: string, t: Template, name: string, to: string)
    requires Cut(t) && NoPercent(to) && NoPercent(l) && NoPercent(c)
    ensures Cut(Enclosed(l, c, t, name, to))
    decreases t, 1
  {
    if t.Hole? && t.lit == name { CutEnclosed(l, c + to + t.content, t.rest, name, to); } else { CutPass(t, name, to, ""); }
  }

  lemma {:induction false} StagedExact(t: Template, values: seq<string>, k: nat)
    requires Cut(t) && k <= |NAMES| == |values| && PercentFree(values)
    ensures Cut(Staged(t, values, k)) && Text(Staged(t, values, k)) == Passes(Text(t), values, k)
  {
    hide Cut, Pass, Replace, Placeholder, NAMES, NoPercent;
    NamesAreNames();
    if k > 0 {
      StagedExact(t, values, k - 1);
      var u := Staged(t, values, k - 1);
      EmptyHasNone();
      CutPass(u, NAMES[k - 1], values[k - 1], "");
      PassExact(u, NAMES[k - 1], values[k - 1], "");
      EmptyFirst(Replace(Text(u), Placeholder(NAMES[k - 1]), values[k - 1]));
    }
  }

  lemma EmptyHasNone()
    ensures NoPercent("")
  {}

  // ---- passes without a clash ------------------------------------------------------------------------

  /** No text between a pair that is not being replaced and the next pair reads as the name. */
  predicate NoClash(t: Template, name: string) {
    t.Hole? ==> (t.content == name || t.rest.End? || t.rest.lit != name) && NoClash(t.rest, name)
  }

  /** The pairs that enclose the name replaced, all others kept. */
  function Fill(t: Template, name: string, to: string, pre: string): Template {
    match t
    case End(l) => End(pre + l)
    case Hole(l, c, r) =>
      if c == name then Fill(r, name, to, pre + l + to) else Hole(pre + l, c, Fill(r, name, to, ""))
  }

  lemma {:induction false} PassFills(t: Template, name: string, to: string, pre: string)
    requires NoClash(t, name)
    ensures Pass(t, name, to, pre) == Fill(t, name, to, pre)
  {
    if t.Hole? {
      if t.content == name { PassFills(t.rest, name, to, pre + t.lit + to); } else { PassFills(t.rest, name, to, ""); }
    }
  }

  function Filled(t: Template, values: seq<string>, k: nat): Template
    requires k <= |NAMES| == |values|
  {
    if k == 0 then t else Fill(Filled(t, values, k - 1), NAMES[k - 1], values[k - 1], "")
  }

  /** When the names are replaced one after another in their order, no text between two pairs that
      are still there ever reads as the name whose turn it is. */
  predicate CleanUpTo(t: Template, values: seq<string>, k: nat)
    requires k <= |NAMES| == |values|
  {
    k > 0 ==> CleanUpTo(t, values, k - 1) && NoClash(Filled(t, values, k - 1), NAMES[k - 1])
  }

  predicate Clean(t: Template, values: seq<string>)
    requires |NAMES| == |values|
  {
    CleanUpTo(t, values, |NAMES|)
  }

  lemma {:induction false} CleanFills(t: Template, values: seq<string>, k: nat)
    requires k <= |NAMES| == |values| && CleanUpTo(t, values, k)
    ensures Staged(t, values, k) == Filled(t, values, k)
  {
    hide NoClash, Pass, Fill, NAMES;
    if k > 0 {
      CleanFills(t, values, k - 1);
      PassFills(Filled(t, values, k - 1), NAMES[k - 1], values[k - 1], "");
    }
  }

  // ---- the substitution ---------------------------------------------------------------------------------

  /** The number of a name; the count when it is none. */
  function Index(c: string): (i: nat)
    ensures i <= |NAMES| && (i < |NAMES| ==> NAMES[i] == c)
    ensures i == |NAMES| ==> c !in NAMES
  {
    if c == "BIN" then 0 else if c == "LISTS" then 1 else if c == "USER_LISTS" then 2
    else if c == "GAME_TCP" then 3 else if c == "GAME_UDP" then 4 else if c == "GAME_BOTH" then 5 else 6
  }

  /** Every pair encloses a name, the k-th or a later one. */
  predicate Proper(t: Template, k: nat) {
    t.Hole? ==> k <= Index(t.content) < |NAMES| && Proper(t.rest, k)
  }

  /** The simultaneous substitution: each placeholder stands for its value. */
  function Substituted(t: Template, values: seq<string>): string
    requires |NAMES| == |values| && Proper(t, 0)
  {
    match t
    case End(l) => l
    case Hole(l, c, r) => l + values[Index(c)] + Substituted(r, values)
  }

  lemma {:induction false} ProperFill(t: Template, k: nat, to: string, pre: string)
    requires k < |NAMES| && Proper(t, k)
    ensures Proper(Fill(t, NAMES[k], to, pre), k + 1)
    decreases t
  {
    hide Index, NAMES;
    if t.Hole? {
      if t.content == NAMES[k] { ProperFill(t.rest, k, to, pre + t.lit + to); } else { ProperFill(t.rest, k, to, ""); }
    }
  }

  lemma {:induction false} ProperLess(t: Template, j: nat, k: nat)
    requires j <= k && Proper(t, k)
    ensures Proper(t, j)
    decreases t
  {
    hide Index;
    if t.Hole? { ProperLess(t.rest, j, k); }
  }

  lemma {:induction false} FillSubstitutes(t: Template, k: nat, values: seq<string>, pre: string)
    requires k < |NAMES| == |values| && Proper(t, k)
    ensures Proper(t, 0) && Proper(Fill(t, NAMES[k], values[k], pre), 0)
    ensures Substituted(Fill(t, NAMES[k], values[k], pre), values) == pre + Substituted(t, values)
    decreases t
  {
    ProperLess(t, 0, k);
    ProperFill(t, k, values[k], pre);
    ProperLess(Fill(t, NAMES[k], values[k], pre), 0, k + 1);
    IndexOfName(k);
    hide Index, NAMES;
    if t.Hole? {
      if t.content == NAMES[k] {
        FillSubstitutes(t.rest, k, values, pre + t.lit + values[k]);
        Regroup4(pre, t.lit, values[k], Substituted(t.rest, values));
      } else {
        FillSubstitutes(t.rest, k, values, "");
        EmptyFirst(Substituted(t.rest, values));
        Regroup4(pre, t.lit, values[Index(t.content)], Substituted(t.rest, values));
      }
    }
  }

  lemma IndexOfName(k: nat)
    requires k < |NAMES|
    ensures Index(NAMES[k]) == k
  {}

  lemma {:induction false} FilledSubstitutes(t: Template, values: seq<string>, k: nat)
    requires k <= |NAMES| == |values| && Proper(t, 0)
    ensures Proper(Filled(t, values, k), k) && Proper(Filled(t, values, k), 0)
    ensures Substituted(Filled(t, values, k), values) == Substituted(t, values)
  {
    hide Fill, Substituted, Proper, NAMES;
    if k > 0 {
      FilledSubstitutes(t, values, k - 1);
      var u := Filled(t, values, k - 1);
      FillSubstitutes(u, k - 1, values, "");
      ProperFill(u, k - 1, values[k - 1], "");
      EmptyFirst(Substituted(u, values));
    }
  }

  // ---- after a clash ---------------------------------------------------------------------------------

  predicate Foreign(s: string) { exists i | 0 <= i < |s| :: !IsNameChar(s[i]) }

  /** `c` is n names, one after another. */
  predicate IsChain(c: string, n: nat) {
    if n == 0 then c == "" else exists k | 0 <= k < |NAMES| :: NAMES[k] <= c && IsChain(c[|NAMES[k]|..], n - 1)
  }

  /** What a pair encloses that no pass can remove any more: something no name holds, or two or
      more names in a row. */
  ghost predicate Dead(c: string) { Foreign(c) || exists n: nat :: n >= 2 && IsChain(c, n) }

  ghost predicate Enclosable(c: string) { IsChain(c, 1) || Dead(c) }

  lemma ChainCons(k: nat, c: string, n: nat)
    requires k < |NAMES| && IsChain(c, n)
    ensures IsChain(NAMES[k] + c, n + 1)
  {
    hide NAMES;
    assert (NAMES[k] + c)[|NAMES[k]|..] == c;
  }

  lemma ChainSplit(c: string, n: nat) returns (k: nat, rest: string)
    requires n > 0 && IsChain(c, n)
    ensures k < |NAMES| && c == NAMES[k] + rest && IsChain(rest, n - 1)
  {
    hide NAMES;
    k :| 0 <= k < |NAMES| && NAMES[k] <= c && IsChain(c[|NAMES[k]|..], n - 1);
    rest := c[|NAMES[k]|..];
  }

  lemma NoChain(c: string)
    ensures IsChain(c, 0) <==> c == ""
  {}

  lemma {:induction false} ChainConcat(a: string, n: nat, b: string, m: nat)
    requires IsChain(a, n) && IsChain(b, m)
    ensures IsChain(a + b, n + m)
    decreases n
  {
    hide NAMES, IsChain;
    if n == 0 {
      NoChain(a);
      assert a + b == b;
    } else {
      var k, rest := ChainSplit(a, n);
      ChainConcat(rest, n - 1, b, m);
      ChainCons(k, rest + b, n - 1 + m);
      assert a + b == NAMES[k] + (rest + b);
    }
  }

  lemma NameIsChain(k: nat)
    requires k < |NAMES|
    ensures IsChain(NAMES[k], 1)
  {
    hide NAMES;
    assert NAMES[k][|NAMES[k]|..] == "";
    assert IsChain("", 0);
  }

  /** No name begins another one. */
  lemma PrefixFree(i: nat, j: nat)
    requires i < |NAMES| && j < |NAMES| && NAMES[i] <= NAMES[j]
    ensures i == j
  {
    assert NAMES[i][0] == NAMES[j][0];
    assert NAMES[0][0] == 'B' && NAMES[1][0] == 'L' && NAMES[2][0] == 'U';
    assert NAMES[3][0] == 'G' && NAMES[4][0] == 'G' && NAMES[5][0] == 'G';
    assert NAMES[3][5] == 'T' && NAMES[4][5] == 'U' && NAMES[5][5] == 'B';
    if i >= 3 { assert NAMES[i][5] == NAMES[j][5]; }
  }

  lemma ChainNotEmpty(c: string, n: nat)
    requires n > 0 && IsChain(c, n)
    ensures c != ""
  {
    NamesAreNames();
    hide NAMES, IsChain;
    var k, rest := ChainSplit(c, n);
  }

  /** A name is one name only. */
  lemma ChainOfName(j: nat, n: nat)
    requires j < |NAMES| && IsChain(NAMES[j], n)
    ensures n == 1
  {
    NamesAreNames();
    NoChain(NAMES[j]);
    hide NAMES, IsChain;
    if n >= 1 {
      var k, rest := ChainSplit(NAMES[j], n);
      if n > 1 { ChainNotEmpty(rest, n - 1); }
      PrefixFree(k, j);
    }
  }

  lemma NameNotForeign(j: nat)
    requires j < |NAMES|
    ensures !Foreign(NAMES[j])
  {
    NamesAreNames();
  }

  lemma DeadIsNoName(c: string)
    requires Dead(c)
    ensures c !in NAMES
  {
    hide NAMES, Foreign, IsChain;
    forall j | 0 <= j < |NAMES| ensures NAMES[j] != c {
      NameNotForeign(j);
      forall n: nat | n >= 2 ensures !IsChain(NAMES[j], n) {
        if IsChain(NAMES[j], n) { ChainOfName(j, n); }
      }
    }
  }

  lemma ForeignConcat(a: string, b: string)
    requires Foreign(a) || Foreign(b)
    ensures Foreign(a + b)
  {
    if Foreign(a) {
      var i :| 0 <= i < |a| && !IsNameChar(a[i]);
      assert (a + b)[i] == a[i];
    } else {
      var i :| 0 <= i < |b| && !IsNameChar(b[i]);
      assert (a + b)[|a| + i] == b[i];
    }
  }

  /** Two pairs run together enclose something dead. */
  lemma MergedIsDead(a: string, to: string, b: string)
    requires Enclosable(a) && Enclosable(b) && (to == "" || Foreign(to))
    ensures Dead(a + to + b)
  {
    hide Foreign, IsChain;
    if Foreign(a) || Foreign(to) {
      ForeignConcat(a, to);
      ForeignConcat(a + to, b);
    } else if Foreign(b) {
      ForeignConcat(a + to, b);
    } else {
      assert a + to == a;
      var n: nat :| n >= 1 && IsChain(a, n);
      var m: nat :| m >= 1 && IsChain(b, m);
      ChainConcat(a, n, b, m);
    }
  }

  ghost predicate AllEnclosable(t: Template) { t.Hole? ==> Enclosable(t.content) && AllEnclosable(t.rest) }

  ghost predicate HasDead(t: Template) { t.Hole? && (Dead(t.content) || HasDead(t.rest)) }

  predicate Allowed(to: string) { to == "" || Foreign(to) }

  lemma {:induction false} PassKeeps(t: Template, k: nat, to: string, pre: string)
    requires k < |NAMES| && Allowed(to) && AllEnclosable(t)
    ensures AllEnclosable(Pass(t, NAMES[k], to, pre))
    ensures HasDead(t) || !NoClash(t, NAMES[k]) ==> HasDead(Pass(t, NAMES[k], to, pre))
    decreases t, 0
  {
    hide NAMES, Enclosable, Dead, Allowed;
    if t.Hole? {
      if t.content == NAMES[k] {
        if Dead(t.content) { DeadIsNoName(t.content); }
        PassKeeps(t.rest, k, to, pre + t.lit + to);
      } else {
        EnclosedKeeps(pre + t.lit, t.content, t.rest, k, to);
      }
    }
  }

  lemma {:induction false} EnclosedKeeps(l: string, c: string, t: Template, k: nat, to: string)
    requires k < |NAMES| && Allowed(to) && AllEnclosable(t) && Enclosable(c)
    ensures AllEnclosable(Enclosed(l, c, t, NAMES[k], to))
    ensures Dead(c) || HasDead(t) || !NoClash(t, NAMES[k]) || (t.Hole? && t.lit == NAMES[k])
            ==> HasDead(Enclosed(l, c, t, NAMES[k], to))
    decreases t, 1
  {
    hide NAMES, Enclosable, Dead, Allowed;
    if t.Hole? && t.lit == NAMES[k] {
      AllowedMeans(to);
      MergedIsDead(c, to, t.content);
      DeadIsEnclosable(c + to + t.content);
      EnclosedKeeps(l, c + to + t.content, t.rest, k, to);
    } else {
      PassKeeps(t, k, to, "");
    }
  }

  lemma AllowedMeans(to: string)
    requires Allowed(to)
    ensures to == "" || Foreign(to)
  {}

  lemma DeadIsEnclosable(c: string)
    requires Dead(c)
    ensures Enclosable(c)
  {}

  lemma {:induction false} ProperEnclosable(t: Template)
    requires Proper(t, 0)
    ensures AllEnclosable(t)
  {
    hide NAMES, IsChain, Dead;
    if t.Hole? {
      NameIsChain(Index(t.content));
      ProperEnclosable(t.rest);
    }
  }

  lemma {:induction false} ClashIsFatal(t: Template, values: seq<string>, k: nat)
    requires k <= |NAMES| == |values| && Proper(t, 0) && forall i | 0 <= i < |values| :: Allowed(values[i])
    ensures AllEnclosable(Staged(t, values, k))
    ensures !CleanUpTo(t, values, k) ==> HasDead(Staged(t, values, k))
  {
    hide NAMES, Allowed, AllEnclosable, HasDead, NoClash, Pass, Fill, Proper;
    if k == 0 {
      ProperEnclosable(t);
    } else {
      ClashIsFatal(t, values, k - 1);
      PassKeeps(Staged(t, values, k - 1), k - 1, values[k - 1], "");
      if CleanUpTo(t, values, k - 1) { CleanFills(t, values, k - 1); }
    }
  }

  // ---- the main results --------------------------------------------------------------------------------

  lemma {:induction false} SubstitutedIsFree(t: Template, values: seq<string>)
    requires |NAMES| == |values| && Proper(t, 0) && Cut(t) && PercentFree(values)
    ensures NoPercent(Substituted(t, values))
  {
    hide NAMES, Index;
    if t.Hole? { SubstitutedIsFree(t.rest, values); }
  }

  /** The six passes over a token are the simultaneous substitution, and leave no percent sign,
      exactly when no text between two placeholders clashes; after a clash a percent sign is left.
      Each value is percent-free, and empty or with a character that no name has. */
  lemma PassesExactly(t: Template, values: seq<string>)
    requires |NAMES| == |values| && Cut(t) && Proper(t, 0) && PercentFree(values)
    requires forall i | 0 <= i < |values| :: Allowed(values[i])
    ensures Clean(t, values) ==>
            Passes(Text(t), values, |NAMES|) == Substituted(t, values) && NoPercent(Substituted(t, values))
    ensures !Clean(t, values) ==> !NoPercent(Passes(Text(t), values, |NAMES|))
  {
    NamesAreNames();
    hide NAMES, Allowed, Passes, Staged, CleanUpTo, HasDead, Cut, NoPercent;
    var k := |NAMES|;
    StagedExact(t, values, k);
    SubstitutedIsFree(t, values);
    if Clean(t, values) {
      CleanFills(t, values, k);
      FilledSubstitutes(t, values, k);
      NoHoles(Filled(t, values, k), values);
    } else {
      ClashIsFatal(t, values, k);
      DeadHasPercent(Staged(t, values, k));
    }
  }

  lemma NoHoles(t: Template, values: seq<string>)
    requires |NAMES| == |values| && Proper(t, |NAMES|) && Proper(t, 0)
    ensures Text(t) == Substituted(t, values)
  {}

  lemma DeadHasPercent(t: Template)
    requires HasDead(t)
    ensures !NoPercent(Text(t))
  {
    assert Text(t)[|t.lit|] == '%';
  }

  // ---- tokens that are no templates ------------------------------------------------------------------

  function Percents(s: string): nat {
    if s == "" then 0 else (if s[0] == '%' then 1 else 0) + Percents(s[1..])
  }

  lemma {:induction false} PercentsConcat(a: string, b: string)
    ensures Percents(a + b) == Percents(a) + Percents(b)
  {
    if a == "" {
      assert a + b == b;
    } else {
      PercentsConcat(a[1..], b);
      assert (a + b)[1..] == a[1..] + b;
    }
  }

  lemma {:induction false} PercentsNone(s: string)
    ensures Percents(s) == 0 <==> NoPercent(s)
  {
    if s != "" {
      PercentsNone(s[1..]);
      assert s == [s[0]] + s[1..];
    }
  }

  lemma PercentsOfPlaceholder(name: string)
    requires NoPercent(name)
    ensures Percents(Placeholder(name)) == 2
  {
    PercentsNone(name);
    PercentsConcat("%", name);
    PercentsConcat("%" + name, "%");
    assert Percents("%") == 1;
  }

  /** A pass removes percent signs two at a time. */
  lemma {:induction false} ParityKept(s: string, name: string, to: string)
    requires NoPercent(name) && NoPercent(to)
    ensures Percents(Replace(s, Placeholder(name), to)) % 2 == Percents(s) % 2
    decreases |s|
  {
    var from := Placeholder(name);
    PercentsOfPlaceholder(name);
    PercentsNone(to);
    hide Placeholder, NoPercent;
    if s != "" {
      if from <= s {
        var rest := s[|from|..];
        assert s == from + rest;
        ParityKept(rest, name, to);
        PercentsConcat(from, rest);
        PercentsConcat(to, Replace(rest, from, to));
      } else {
        ParityKept(s[1..], name, to);
        PercentsConcat([s[0]], Replace(s[1..], from, to));
        PercentsConcat([s[0]], s[1..]);
        assert s == [s[0]] + s[1..];
      }
    }
  }

  lemma {:induction false} ParityOfPasses(s: string, values: seq<string>, k: nat)
    requires k <= |NAMES| == |values| && PercentFree(values)
    ensures Percents(Passes(s, values, k)) % 2 == Percents(s) % 2
  {
    NamesAreNames();
    hide NAMES, NoPercent, Replace;
    if k > 0 {
      ParityOfPasses(s, values, k - 1);
      ParityKept(Passes(s, values, k - 1), NAMES[k - 1], values[k - 1]);
    }
  }

  /** A token with an even number of percent signs is a template. */
  lemma {:induction false} TemplateOf(s: string) returns (t: Template)
    requires Percents(s) % 2 == 0
    ensures Cut(t) && Text(t) == s
    decreases |s|
  {
    var e := Find(s, '%', 0);
    if e == |s| {
      t := End(s);
    } else {
      var f := Find(s, '%', e + 1);
      var l, c := s[..e], s[e + 1..f];
      PercentsNone(l);
      PercentsNone(c);
      assert s[..e] + ["%"[0]] + s[e + 1..] == s;
      CutAt(s, l, c, e, f);
      var rest := s[f + 1..];
      var r := TemplateOf(rest);
      t := Hole(l, c, r);
    }
  }

  lemma PercentsOfParts(l: string, c: string, tail: string)
    requires Percents(l) == 0 && Percents(c) == 0
    ensures Percents(l + ("%" + (c + tail))) == 1 + Percents(tail)
  {
    PercentsConcat(l, "%" + (c + tail));
    PercentsConcat("%", c + tail);
    PercentsConcat(c, tail);
    OnePercent();
  }

  lemma OnePercent()
    ensures Percents("%") == 1 && Percents("") == 0
  {}

  lemma Parts(s: string, e: nat, f: nat)
    requires e < f <= |s| && s[e] == '%'
    ensures s == s[..e] + ("%" + (s[e + 1..f] + s[f..]))
  {}

  lemma AfterSecond(s: string, f: nat)
    requires f <= |s| && (f < |s| ==> s[f] == '%')
    ensures f < |s| ==> s[f..] == "%" + s[f + 1..]
    ensures f == |s| ==> s[f..] == ""
  {}

  lemma SecondExists(s: string, l: string, c: string, e: nat, f: nat)
    requires e < f <= |s| && l == s[..e] && c == s[e + 1..f] && s[e] == '%'
    requires Percents(l) == 0 && Percents(c) == 0 && Percents(s) % 2 == 0
    ensures Percents(s) == 1 + Percents(s[f..]) && f < |s|
  {
    hide Percents;
    Parts(s, e, f);
    CutTail(l, c, s[f..]);
    assert |s[f..]| == |s| - f;
  }

  lemma CutAt(s: string, l: string, c: string, e: nat, f: nat)
    requires e < f <= |s| && l == s[..e] && c == s[e + 1..f] && s[e] == '%' && (f < |s| ==> s[f] == '%')
    requires Percents(l) == 0 && Percents(c) == 0 && Percents(s) % 2 == 0
    ensures f < |s| && Percents(s[f + 1..]) % 2 == 0 && s == l + ("%" + (c + ("%" + s[f + 1..])))
  {
    hide Percents;
    SecondExists(s, l, c, e, f);
    AfterSecond(s, f);
    PercentsAfter(s[f + 1..]);
    Parts(s, e, f);
  }

  lemma CutTail(l: string, c: string, tail: string)
    requires Percents(l) == 0 && Percents(c) == 0
    ensures Percents(l + ("%" + (c + tail))) == 1 + Percents(tail)
    ensures Percents("") == 0
  {
    PercentsOfParts(l, c, tail);
  }

  lemma PercentsAfter(rest: string)
    ensures Percents("%" + rest) == 1 + Percents(rest)
  {
    hide Percents;
    OnePercent();
    PercentsConcat("%", rest);
  }

  /** Some pair encloses what is no name. */
  predicate HasOther(t: Template) { t.Hole? && (t.content !in NAMES || HasOther(t.rest)) }

  lemma ForeignIsNoName(s: string)
    requires Foreign(s)
    ensures s !in NAMES
  {
    hide NAMES;
    forall j | 0 <= j < |NAMES| ensures NAMES[j] != s { NameNotForeign(j); }
  }

  lemma {:induction false} OtherStays(t: Template, k: nat, to: string, pre: string)
    requires k < |NAMES| && Foreign(to) && HasOther(t)
    ensures HasOther(Pass(t, NAMES[k], to, pre))
    decreases t, 0
  {
    hide NAMES, Foreign;
    if t.content == NAMES[k] {
      OtherStays(t.rest, k, to, pre + t.lit + to);
    } else {
      OtherEnclosed(pre + t.lit, t.content, t.rest, k, to);
    }
  }

  lemma {:induction false} OtherEnclosed(l: string, c: string, t: Template, k: nat, to: string)
    requires k < |NAMES| && Foreign(to) && (c !in NAMES || HasOther(t))
    ensures HasOther(Enclosed(l, c, t, NAMES[k], to))
    decreases t, 1
  {
    hide NAMES, Foreign;
    if t.Hole? && t.lit == NAMES[k] {
      ForeignConcat(c, to);
      ForeignConcat(c + to, t.content);
      ForeignIsNoName(c + to + t.content);
      OtherEnclosed(l, c + to + t.content, t.rest, k, to);
    } else if c in NAMES {
      OtherStays(t, k, to, "");
    }
  }

  lemma {:induction false} OtherIsFatal(t: Template, values: seq<string>, k: nat)
    requires k <= |NAMES| == |values| && HasOther(t) && forall i | 0 <= i < |values| :: Foreign(values[i])
    ensures HasOther(Staged(t, values, k))
  {
    hide NAMES, Foreign, HasOther, Pass;
    if k > 0 {
      OtherIsFatal(t, values, k - 1);
      OtherStays(Staged(t, values, k - 1), k - 1, values[k - 1], "");
    }
  }

  lemma {:induction false} ProperOrOther(t: Template)
    ensures Proper(t, 0) <==> !HasOther(t)
  {
    if t.Hole? { ProperOrOther(t.rest); }
  }

  // ---- the clash, read off the token ----------------------------------------------------------------------

  /** Between no two neighbouring pairs stands the name of a placeholder, the k-th or a later one,
      that is replaced before the first of them and not after the second. */
  predicate Apart(t: Template, k: nat) {
    t.Hole? ==>
      && (t.rest.Hole? ==> !(k <= Index(t.rest.lit) < Index(t.content) && Index(t.rest.lit) <= Index(t.rest.content)))
      && Apart(t.rest, k)
  }

  lemma {:induction false} ApartSplit(u: Template, k: nat)
    requires k < |NAMES| && Proper(u, k)
    ensures Apart(u, k) <==> NoClash(u, NAMES[k]) && Apart(u, k + 1)
  {
    hide NAMES;
    if u.Hole? {
      ApartSplit(u.rest, k);
      IndexIs(u.content, k);
      if u.rest.Hole? { IndexIs(u.rest.lit, k); }
    }
  }

  lemma IndexIs(c: string, k: nat)
    requires k < |NAMES|
    ensures Index(c) == k <==> c == NAMES[k]
  {
    IndexOfName(k);
  }

  lemma {:induction false} FillForeign(t: Template, name: string, to: string, pre: string)
    requires Foreign(pre)
    ensures Foreign(Fill(t, name, to, pre).lit)
  {
    hide Foreign;
    ForeignConcat(pre, t.lit);
    if t.Hole? && t.content == name {
      ForeignConcat(pre + t.lit, to);
      FillForeign(t.rest, name, to, pre + t.lit + to);
    }
  }

  lemma ForeignIndex(s: string)
    requires Foreign(s)
    ensures Index(s) == |NAMES|
  {
    ForeignIsNoName(s);
  }

  /** Replacing the k-th name brings no clash over a later one, and takes none away. */
  lemma {:induction false} ApartFill(u: Template, k: nat, to: string, pre: string)
    requires k < |NAMES| && Proper(u, k) && Foreign(to)
    ensures Apart(Fill(u, NAMES[k], to, pre), k + 1) <==> Apart(u, k + 1)
    decreases u
  {
    hide NAMES, Foreign;
    if u.Hole? {
      var r := u.rest;
      IndexIs(u.content, k);
      if u.content == NAMES[k] {
        ApartFill(r, k, to, pre + u.lit + to);
      } else {
        ApartFill(r, k, to, "");
        if r.Hole? {
          IndexIs(r.content, k);
          EmptyFirst(r.lit);
          if r.content == NAMES[k] {
            ForeignConcat("" + r.lit, to);
            FillForeign(r.rest, NAMES[k], to, "" + r.lit + to);
            ForeignIndex(Fill(r, NAMES[k], to, "").lit);
          }
        }
      }
    }
  }

  lemma {:induction false} ApartUpTo(t: Template, values: seq<string>, k: nat)
    requires k <= |NAMES| == |values| && Proper(t, 0) && forall i | 0 <= i < |values| :: Foreign(values[i])
    ensures CleanUpTo(t, values, k) && Apart(Filled(t, values, k), k) <==> Apart(t, 0)
  {
    hide NAMES, Foreign, NoClash, Fill, Apart, Proper;
    if k > 0 {
      ApartUpTo(t, values, k - 1);
      FilledSubstitutes(t, values, k - 1);
      ApartSplit(Filled(t, values, k - 1), k - 1);
      ApartFill(Filled(t, values, k - 1), k - 1, values[k - 1], "");
    }
  }

  lemma {:induction false} ApartAtEnd(t: Template)
    ensures Apart(t, |NAMES|)
  {
    hide NAMES;
    if t.Hole? { ApartAtEnd(t.rest); }
  }

  /** Whether the passes clash depends on the token alone, for values with a character that no
      name has. */
  lemma CleanExactly(t: Template, values: seq<string>)
    requires |NAMES| == |values| && Proper(t, 0) && forall i | 0 <= i < |values| :: Foreign(values[i])
    ensures Clean(t, values) <==> Apart(t, 0)
  {
    hide NAMES, Foreign, Apart, Proper, CleanUpTo, Filled;
    ApartUpTo(t, values, |NAMES|);
    ApartAtEnd(Filled(t, values, |NAMES|));
  }

  /** A token that the launcher can resolve: its percent signs pair up into known placeholders, and
      no placeholder that is replaced too early stands across two of them. */
  ghost predicate Resolves(token: string, values: seq<string>, out: string)
    requires |NAMES| == |values|
  {
    exists t: Template :: Cut(t) && Text(t) == token && Proper(t, 0) && Apart(t, 0) && out == Substituted(t, values)
  }

  /** For every token: the six passes leave no percent sign exactly when the token resolves, and
      then they give the simultaneous substitution. */
  lemma PassesResolve(token: string, values: seq<string>)
    requires |NAMES| == |values| && PercentFree(values) && forall i | 0 <= i < |values| :: Foreign(values[i])
    ensures var out := Passes(token, values, |NAMES|);
            NoPercent(out) <==> Resolves(token, values, out)
  {
    hide NAMES, Passes, Clean, Apart, Cut, Text, Proper, Substituted, NoPercent, Foreign;
    var out := Passes(token, values, |NAMES|);
    ParityOfPasses(token, values, |NAMES|);
    PercentsNone(out);
    forall i | 0 <= i < |values| ensures Allowed(values[i]) { ForeignAllowed(values[i]); }
    if NoPercent(out) {
      var t := TemplateOf(token);
      StagedExact(t, values, |NAMES|);
      ProperOrOther(t);
      if HasOther(t) {
        OtherIsFatal(t, values, |NAMES|);
        OtherHasPercent(Staged(t, values, |NAMES|));
      } else {
        CleanExactly(t, values);
        PassesExactly(t, values);
      }
    }
    if Resolves(token, values, out) {
      var t: Template :| Cut(t) && Text(t) == token && Proper(t, 0) && Apart(t, 0) && out == Substituted(t, values);
      CleanExactly(t, values);
      PassesExactly(t, values);
    }
  }

  lemma ForeignAllowed(s: string)
    requires Foreign(s)
    ensures Allowed(s)
  {}

  lemma OtherHasPercent(t: Template)
    requires HasOther(t)
    ensures !NoPercent(Text(t))
  {
    assert Text(t)[|t.lit|] == '%';
  }

  // ---- BuildArguments ------------------------------------------------------------------------------------

  function GameFilterTcpValue(mode: GameFilterMode): string { if mode.All? || mode.Tcp? then "1024-65535" else "12" }

  function GameFilterUdpValue(mode: GameFilterMode): string { if mode.All? || mode.Udp? then "1024-65535" else "12" }

  /** What the placeholders stand for. */
  function ValuesFor(binDir: string, listsDir: string, mode: GameFilterMode, userListsDir: string): (v: seq<string>)
    ensures |v| == |NAMES|
  {
    [binDir + "\\", listsDir + "\\", (if userListsDir == "" then listsDir else userListsDir) + "\\",
     GameFilterTcpValue(mode), GameFilterUdpValue(mode), if mode.Off? then "12" else "1024-65535"]
  }

  /** Directories without percent signs give values that the placeholders cannot clash with. */
  lemma ValuesAreForeign(binDir: string, listsDir: string, mode: GameFilterMode, userListsDir: string)
    requires NoPercent(binDir) && NoPercent(listsDir) && NoPercent(userListsDir)
    ensures var v := ValuesFor(binDir, listsDir, mode, userListsDir);
            PercentFree(v) && forall i | 0 <= i < |v| :: Foreign(v[i])
  {
    var v := ValuesFor(binDir, listsDir, mode, userListsDir);
    EndsForeign(binDir);
    EndsForeign(listsDir);
    EndsForeign(userListsDir);
    assert "12"[0] == '1' && "1024-65535"[0] == '1';
    assert Foreign("12") && Foreign("1024-65535");
  }

  lemma EndsForeign(dir: string)
    ensures Foreign(dir + "\\")
  {
    assert (dir + "\\")[|dir|] == '\\';
  }

  /** What a pair that encloses `name` stands for. */
  function Meaning(name: string, binDir: string, listsDir: string, mode: GameFilterMode, userListsDir: string): string {
    match name
    case "BIN" => binDir + "\\"
    case "LISTS" => listsDir + "\\"
    case "USER_LISTS" => (if userListsDir == "" then listsDir else userListsDir) + "\\"
    case "GAME_TCP" => if mode in {All, Tcp} then "1024-65535" else "12"
    case "GAME_UDP" => if mode in {All, Udp} then "1024-65535" else "12"
    case "GAME_BOTH" => if mode in {All, Tcp, Udp} then "1024-65535" else "12"
    case _ => ""
  }

  /** The token with every pair replaced by what it stands for. */
  function Meant(t: Template, binDir: string, listsDir: string, mode: GameFilterMode, userListsDir: string): string {
    match t
    case End(l) => l
    case Hole(l, c, r) => l + Meaning(c, binDir, listsDir, mode, userListsDir) + Meant(r, binDir, listsDir, mode, userListsDir)
  }

  lemma ValueMeans(name: string, binDir: string, listsDir: string, mode: GameFilterMode, userListsDir: string)
    requires Index(name) < |NAMES|
    ensures ValuesFor(binDir, listsDir, mode, userListsDir)[Index(name)]
         == Meaning(name, binDir, listsDir, mode, userListsDir)
  {}

  lemma {:induction false} SubstitutedMeans(t: Template, binDir: string, listsDir: string, mode: GameFilterMode, userListsDir: string)
    requires Proper(t, 0)
    ensures Substituted(t, ValuesFor(binDir, listsDir, mode, userListsDir)) == Meant(t, binDir, listsDir, mode, userListsDir)
  {
    hide NAMES, Index, ValuesFor, Meaning;
    if t.Hole? {
      ValueMeans(t.content, binDir, listsDir, mode, userListsDir);
      SubstitutedMeans(t.rest, binDir, listsDir, mode, userListsDir);
    }
  }

  /** A token that is cut into known placeholders, none of which is straddled by one replaced too
      early. */
  predicate Resolvable(t: Template, token: string) { Cut(t) && Text(t) == token && Proper(t, 0) && Apart(t, 0) }

  /** What becomes of a token: every placeholder replaced by what it stands for, if that is possible
      at all; otherwise a percent sign is left. */
  ghost predicate Built(token: string, out: string, binDir: string, listsDir: string, mode: GameFilterMode, userListsDir: string) {
    && (forall t | Resolvable(t, token) :: out == Meant(t, binDir, listsDir, mode, userListsDir) && NoPercent(out))
    && ((forall t :: !Resolvable(t, token)) ==> !NoPercent(out))
  }

  lemma PassesBuild(token: string, binDir: string, listsDir: string, mode: GameFilterMode, userListsDir: string)
    requires NoPercent(binDir) && NoPercent(listsDir) && NoPercent(userListsDir)
    ensures Built(token, Passes(token, ValuesFor(binDir, listsDir, mode, userListsDir), |NAMES|),
                  binDir, listsDir, mode, userListsDir)
  {
    hide NAMES, Passes, Cut, Text, Proper, Apart, Substituted, NoPercent, ValuesFor, Meant, Foreign;
    var values := ValuesFor(binDir, listsDir, mode, userListsDir);
    var out := Passes(token, values, |NAMES|);
    ValuesAreForeign(binDir, listsDir, mode, userListsDir);
    PassesResolve(token, values);
    forall t | Resolvable(t, token) ensures out == Meant(t, binDir, listsDir, mode, userListsDir) && NoPercent(out) {
      CleanExactly(t, values);
      forall i | 0 <= i < |values| ensures Allowed(values[i]) { ForeignAllowed(values[i]); }
      PassesExactly(t, values);
      SubstitutedMeans(t, binDir, listsDir, mode, userListsDir);
    }
    if NoPercent(out) {
      var t: Template :| Cut(t) && Text(t) == token && Proper(t, 0) && Apart(t, 0) && out == Substituted(t, values);
      assert Resolvable(t, token);
    }
  }

  /** Six replacements in place, for every token of the template. */
  method BuildArguments(template: seq<string>, binDir: string, listsDir: string, mode: GameFilterMode, userListsDir: string)
    returns (out: seq<string>)
    ensures |out| == |template|
    ensures forall i | 0 <= i < |template| ::
              out[i] == Passes(template[i], ValuesFor(binDir, listsDir, mode, userListsDir), |NAMES|)
    ensures NoPercent(binDir) && NoPercent(listsDir) && NoPercent(userListsDir) ==>
              forall i | 0 <= i < |template| :: Built(template[i], out[i], binDir, listsDir, mode, userListsDir)
  {
    hide Passes, Replace, Built, ValuesFor, NoPercent;
    var values := ValuesFor(binDir, listsDir, mode, userListsDir);
    out := [];
    for i := 0 to |template|
      invariant |out| == i && forall k | 0 <= k < i :: out[k] == Passes(template[k], values, |NAMES|)
    {
      var token := SixPasses(template[i], values);
      out := out + [token];
    }
    if NoPercent(binDir) && NoPercent(listsDir) && NoPercent(userListsDir) {
      forall i | 0 <= i < |template| ensures Built(template[i], out[i], binDir, listsDir, mode, userListsDir) {
        PassesBuild(template[i], binDir, listsDir, mode, userListsDir);
      }
    }
  }

  method SixPasses(token: string, values: seq<string>) returns (out: string)
    requires |NAMES| == |values|
    ensures out == Passes(token, values, |NAMES|)
  {
    hide Replace, Placeholder;
    out := ReplaceAll(token, "%BIN%", values[0]);
    assert out == Passes(token, values, 1) by { PassStep(token, values, 0); }
    out := ReplaceAll(out, "%LISTS%", values[1]);
    assert out == Passes(token, values, 2) by { PassStep(token, values, 1); }
    out := ReplaceAll(out, "%USER_LISTS%", values[2]);
    assert out == Passes(token, values, 3) by { PassStep(token, values, 2); }
    out := ReplaceAll(out, "%GAME_TCP%", values[3]);
    assert out == Passes(token, values, 4) by { PassStep(token, values, 3); }
    out := ReplaceAll(out, "%GAME_UDP%", values[4]);
    assert out == Passes(token, values, 5) by { PassStep(token, values, 4); }
    out := ReplaceAll(out, "%GAME_BOTH%", values[5]);
    PassStep(token, values, 5);
  }

  lemma PassStep(token: string, values: seq<string>, k: nat)
    requires k < |NAMES| == |values|
    ensures var from := ["%BIN%", "%LISTS%", "%USER_LISTS%", "%GAME_TCP%", "%GAME_UDP%", "%GAME_BOTH%"];
            from[k] != "" && Passes(token, values, k + 1) == Replace(Passes(token, values, k), from[k], values[k])
    ensures Passes(token, values, 0) == token
  {
    hide Replace;
    assert Placeholder("BIN") == "%BIN%" && Placeholder("LISTS") == "%LISTS%" && Placeholder("USER_LISTS") == "%USER_LISTS%";
    assert Placeholder("GAME_TCP") == "%GAME_TCP%" && Placeholder("GAME_UDP") == "%GAME_UDP%";
    assert Placeholder("GAME_BOTH") == "%GAME_BOTH%";
  }

  // ---- ValidTemplateToken ----------------------------------------------------------------------------------

  const ERASED: seq<string> := ["", "", "", "", "", ""]

  predicate PlainToken(token: string) {
    0 < |token| <= 4096 && 0 as char !in token && '\r' !in token && '\n' !in token
  }

  method ValidTemplateToken(token: string) returns (ok: bool)
    ensures ok == (PlainToken(token) && NoPercent(Passes(token, ERASED, |NAMES|)))
  {
    if token == "" || |token| > 4096 || 0 as char in token || '\r' in token || '\n' in token { return false; }
    var rest := SixPasses(token, ERASED);
    ok := '%' !in rest;
  }

  /** The outside texts up to the first pair of the k-th or a later name, joined together. */
  function UpTo(t: Template, k: nat): Option<string> {
    match t
    case End(_) => None
    case Hole(l, c, r) =>
      if Index(c) >= k then Some(l) else if UpTo(r, k).Some? then Some(l + UpTo(r, k).value) else None
  }

  /** After no pair of a later name do the outside texts, over pairs of earlier names only and up to
      a pair that is not of an earlier name, read as the k-th name. */
  predicate ErasedApart(t: Template, k: nat)
    requires k < |NAMES|
  {
    t.Hole? ==> !(Index(t.content) > k && UpTo(t.rest, k) == Some(NAMES[k])) && ErasedApart(t.rest, k)
  }

  predicate AllErasedApart(t: Template, k: nat)
    requires k <= |NAMES|
  {
    forall j | 0 <= j < k :: ErasedApart(t, j)
  }

  /** The pairs of the k-th and later names, with the texts between them joined. */
  function Surviving(t: Template, k: nat, pre: string): Template {
    match t
    case End(l) => End(pre + l)
    case Hole(l, c, r) => if Index(c) < k then Surviving(r, k, pre + l) else Hole(pre + l, c, Surviving(r, k, ""))
  }

  lemma {:induction false} SurvivingAll(t: Template)
    ensures Surviving(t, 0, "") == t
  {
    if t.Hole? {
      SurvivingAll(t.rest);
      EmptyFirst(t.lit);
    } else {
      EmptyFirst(t.lit);
    }
  }

  lemma {:induction false} SurvivingFill(t: Template, k: nat, before: string, pre: string)
    requires k < |NAMES|
    ensures Fill(Surviving(t, k, pre), NAMES[k], "", before) == Surviving(t, k + 1, before + pre)
    decreases t
  {
    Regroup3(before, pre, t.lit);
    if t.Hole? {
      IndexIs(t.content, k);
      hide NAMES, Index;
      if Index(t.content) < k {
        SurvivingFill(t.rest, k, before, pre + t.lit);
      } else if Index(t.content) == k {
        var joined := before + (pre + t.lit);
        SurvivingFill(t.rest, k, joined, "");
        EmptyLast(joined);
        assert Surviving(t, k + 1, before + pre) == Surviving(t.rest, k + 1, joined);
      } else {
        SurvivingFill(t.rest, k, "", "");
        EmptyLast("");
        assert Surviving(t, k + 1, before + pre) == Hole(before + pre + t.lit, t.content, Surviving(t.rest, k + 1, ""));
      }
    }
  }

  lemma EmptyLast(s: string)
    ensures s + "" == s
  {}

  lemma {:induction false} FilledSurvives(t: Template, k: nat)
    requires k <= |NAMES| == |ERASED|
    ensures Filled(t, ERASED, k) == Surviving(t, k, "")
  {
    if k == 0 {
      SurvivingAll(t);
    } else {
      FilledSurvives(t, k - 1);
      SurvivingFill(t, k - 1, "", "");
      hide NAMES, Fill, Surviving;
      assert ERASED[k - 1] == "";
      EmptyFirst("");
    }
  }

  lemma {:induction false} SurvivingApart(t: Template, k: nat, pre: string)
    requires k < |NAMES|
    ensures NoClash(Surviving(t, k, pre), NAMES[k]) <==> ErasedApart(t, k)
    ensures Surviving(t, k, pre).Hole? <==> UpTo(t, k).Some?
    ensures UpTo(t, k).Some? ==> Surviving(t, k, pre).lit == pre + UpTo(t, k).value
    decreases t
  {
    if t.Hole? {
      IndexIs(t.content, k);
      hide NAMES, Index;
      if Index(t.content) < k {
        SurvivingApart(t.rest, k, pre + t.lit);
        if UpTo(t.rest, k).Some? { Regroup3(pre, t.lit, UpTo(t.rest, k).value); }
      } else {
        SurvivingApart(t.rest, k, "");
        if UpTo(t.rest, k).Some? { EmptyFirst(UpTo(t.rest, k).value); }
      }
    }
  }

  /** Whether the erasures clash depends on the token alone. */
  lemma {:induction false} ErasedCleanExactly(t: Template, k: nat)
    requires k <= |NAMES| == |ERASED|
    ensures CleanUpTo(t, ERASED, k) <==> AllErasedApart(t, k)
  {
    hide NAMES, ErasedApart, NoClash, Filled, Surviving, ERASED;
    if k > 0 {
      ErasedCleanExactly(t, k - 1);
      FilledSurvives(t, k - 1);
      SurvivingApart(t, k - 1, "");
    }
  }

  /** A token that is pairs of known placeholders is accepted exactly when there are no two pairs,
      with pairs of earlier names only between them, whose texts outside the pairs join to a name
      that comes before the name of the first and not after that of the second. */
  lemma ValidExactly(t: Template)
    requires Cut(t) && Proper(t, 0)
    ensures NoPercent(Passes(Text(t), ERASED, |NAMES|)) <==> AllErasedApart(t, |NAMES|)
  {
    hide Passes, Clean, Proper, Cut, Text, AllErasedApart, ERASED, NAMES, NoPercent;
    ErasuresClean(t);
    assert Clean(t, ERASED) <==> AllErasedApart(t, |NAMES|) by { ErasedClean(t); }
  }

  lemma ErasedClean(t: Template)
    ensures |NAMES| == |ERASED| && (Clean(t, ERASED) <==> AllErasedApart(t, |NAMES|))
  {
    hide CleanUpTo, AllErasedApart;
    ErasedCleanExactly(t, |NAMES|);
  }

  lemma ErasuresClean(t: Template)
    requires Cut(t) && Proper(t, 0)
    ensures |NAMES| == |ERASED| && (NoPercent(Passes(Text(t), ERASED, |NAMES|)) <==> Clean(t, ERASED))
  {
    hide Passes, Clean, Substituted, Proper, Cut, Text;
    assert |ERASED| == |NAMES| && PercentFree(ERASED);
    assert forall i | 0 <= i < |ERASED| :: Allowed(ERASED[i]);
    PassesExactly(t, ERASED);
  }

  // ---- where the two differ ------------------------------------------------------------------------------------

  /** No text between two pairs is itself a name: no placeholder straddles the pairs as written. */
  predicate NoStraddle(t: Template) {
    t.Hole? ==> (t.rest.Hole? ==> t.rest.lit !in NAMES) && NoStraddle(t.rest)
  }

  lemma {:induction false} NoStraddleNoClash(t: Template, k: nat)
    requires k < |NAMES| && NoStraddle(t)
    ensures NoClash(t, NAMES[k])
  {
    hide NAMES;
    if t.Hole? { NoStraddleNoClash(t.rest, k); }
  }

  lemma {:induction false} FillKeepsApart(t: Template, k: nat, to: string, pre: string)
    requires k < |NAMES| && Foreign(to) && NoStraddle(t)
    ensures var u := Fill(t, NAMES[k], to, pre);
            && NoStraddle(u)
            && (Foreign(pre) || (pre == "" && (t.Hole? ==> t.lit !in NAMES)) ==> (u.Hole? ==> u.lit !in NAMES))
    decreases t
  {
    hide NAMES, Foreign;
    if t.Hole? {
      if t.content == NAMES[k] {
        ForeignConcat(pre + t.lit, to);
        FillKeepsApart(t.rest, k, to, pre + t.lit + to);
      } else {
        FillKeepsApart(t.rest, k, to, "");
        if Foreign(pre) {
          ForeignConcat(pre, t.lit);
          ForeignIsNoName(pre + t.lit);
        } else if pre == "" {
          EmptyFirst(t.lit);
        }
      }
    }
  }

  /** Values with a character that no name has keep the passes a substitution for every token in
      which no placeholder straddles two pairs. */
  lemma {:induction false} NoStraddleIsClean(t: Template, values: seq<string>, k: nat)
    requires k <= |NAMES| == |values| && NoStraddle(t) && forall i | 0 <= i < |values| :: Foreign(values[i])
    ensures NoStraddle(Filled(t, values, k)) && CleanUpTo(t, values, k)
  {
    hide NAMES, Foreign, NoStraddle, NoClash, Fill;
    if k > 0 {
      NoStraddleIsClean(t, values, k - 1);
      NoStraddleNoClash(Filled(t, values, k - 1), k - 1);
      FillKeepsApart(Filled(t, values, k - 1), k - 1, values[k - 1], "");
    }
  }

  /** A token that the launcher would resolve and the catalogue check refuses: erasing one
      placeholder brings the name of another together between two pairs. */
  lemma RefusedThoughResolved(values: seq<string>)
    requires |NAMES| == |values| && forall i | 0 <= i < |values| :: Foreign(values[i])
    ensures var t := Hole("", "GAME_TCP", Hole("LI", "BIN", Hole("STS", "GAME_TCP", End(""))));
            Cut(t) && Proper(t, 0) && Clean(t, values) && !Clean(t, ERASED)
  {
    var last := Hole("STS", "GAME_TCP", End(""));
    var t := Hole("", "GAME_TCP", Hole("LI", "BIN", last));
    NoStraddleIsClean(t, values, |NAMES|);
    SecondPassClashes(t, last);
    LaterNotClean(t, ERASED, 2, 6);
  }

  lemma SecondPassClashes(t: Template, last: Template)
    requires last == Hole("STS", "GAME_TCP", End("")) && t == Hole("", "GAME_TCP", Hole("LI", "BIN", last))
    ensures !CleanUpTo(t, ERASED, 2)
  {
    assert Fill(last, "BIN", "", "LI") == Hole("LISTS", "GAME_TCP", End(""));
    var u := Filled(t, ERASED, 1);
    assert u == Hole("", "GAME_TCP", Hole("LISTS", "GAME_TCP", End("")));
    assert !NoClash(u, NAMES[1]);
  }

  lemma {:induction false} LaterNotClean(t: Template, values: seq<string>, j: nat, k: nat)
    requires j <= k <= |NAMES| == |values| && !CleanUpTo(t, values, j)
    ensures !CleanUpTo(t, values, k)
  {
    hide NAMES, NoClash, Filled;
    if j < k { LaterNotClean(t, values, j, k - 1); }
  }

  /** A token that the catalogue check accepts and the launcher cannot resolve: erased, its two
      unknown names run together into a known one. */
  lemma AcceptedThoughUnresolved(values: seq<string>)
    requires |NAMES| == |values| && PercentFree(values) && forall i | 0 <= i < |values| :: Foreign(values[i])
    ensures var token := "%LI%BIN%STS%";
            && PlainToken(token) && NoPercent(Passes(token, ERASED, |NAMES|))
            && !NoPercent(Passes(token, values, |NAMES|))
  {
    hide Passes, Staged, Text, Cut, HasOther, Foreign, NAMES, NoPercent, ERASED;
    NamesAreNames();
    var t := Hole("", "LI", Hole("BIN", "STS", End("")));
    UnresolvedText(t);
    UnresolvedStages(t);
    StagedExact(t, ERASED, 6);
    StagedExact(t, values, |NAMES|);
    OtherIsFatal(t, values, |NAMES|);
    OtherHasPercent(Staged(t, values, |NAMES|));
  }

  lemma UnresolvedText(t: Template)
    requires t == Hole("", "LI", Hole("BIN", "STS", End("")))
    ensures Text(t) == "%LI%BIN%STS%" && Text(End("")) == "" && NoPercent("")
    ensures PlainToken("%LI%BIN%STS%") && |ERASED| == 6 && PercentFree(ERASED)
  {
    UnresolvedIsPlain();
    hide PlainToken;
    assert Text(End("")) == "";
    assert Text(Hole("BIN", "STS", End(""))) == "BIN%STS%";
  }

  lemma UnresolvedIsPlain()
    ensures PlainToken("%LI%BIN%STS%")
  {}

  lemma UnresolvedStages(t: Template)
    requires t == Hole("", "LI", Hole("BIN", "STS", End("")))
    ensures Staged(t, ERASED, 6) == End("") && Cut(t) && HasOther(t)
  {
    assert Enclosed("", "LISTS", End(""), "BIN", "") == Hole("", "LISTS", End(""));
    assert Staged(t, ERASED, 1) == Hole("", "LISTS", End(""));
    assert Staged(t, ERASED, 2) == End("");
    assert Staged(t, ERASED, 3) == End("");
    assert Staged(t, ERASED, 4) == End("");
    assert Staged(t, ERASED, 5) == End("");
  }
}
