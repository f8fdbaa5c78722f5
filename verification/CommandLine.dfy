/** Command lines: how the launcher quotes its arguments and how Windows splits them again. */
module CommandLine {
  // ---- wide texts ------------------------------------------------------------------------------

  /** A UTF-16 code unit of a Windows text; halves of surrogate pairs are units like any other. */
  type Unit = u: int | 0 <= u < 0x1_0000

  type Wide = seq<Unit>

  const NUL: Unit := 0
  const TAB: Unit := 9
  const NEWLINE: Unit := 10
  const VERTICAL_TAB: Unit := 11
  const SPACE: Unit := 32
  const QUOTE: Unit := 34
  const BACKSLASH: Unit := 92

  /** The first place of `c` in `s` from `from` on, or the length. */
  function FindUnit(s: Wide, c: Unit, from: nat): (r: nat)
    requires from <= |s|
    ensures from <= r <= |s| && (r < |s| ==> s[r] == c)
    ensures forall i | from <= i < r :: s[i] != c
    decreases |s| - from
  {
    if from == |s| || s[from] == c then from else FindUnit(s, c, from + 1)
  }

  lemma Regroup(a: Wide, b: Wide, c: Wide)
    ensures a + (b + c) == a + b + c
  {}

  // ---- the rules of CommandLineToArgvW --------------------------------------------------------

  /** What two quotes in a row mean inside quotes.  Microsoft's documents and runtimes differ;
      nothing here depends on the choice. */
  datatype PairRule = ClosesAndOpens | LiteralAndStays | LiteralAndCloses

  predicate IsBlank(c: Unit) { c == SPACE || c == TAB }

  function SkipBlanks(t: Wide): (r: Wide)
    ensures |r| <= |t|
  {
    if t != [] && IsBlank(t[0]) then SkipBlanks(t[1..]) else t
  }

  /** How many backslashes `t` starts with. */
  function Run(t: Wide): (n: nat)
    ensures n <= |t| && (n < |t| ==> t[n] != BACKSLASH)
  {
    if t != [] && t[0] == BACKSLASH then 1 + Run(t[1..]) else 0
  }

  function Slashes(n: nat): (s: Wide)
    ensures |s| == n
  {
    seq(n, _ => BACKSLASH)
  }

  /** The rest of one argument after `out`: 2n backslashes and a quote stand for n backslashes and
      a delimiter, 2n + 1 and a quote for n backslashes and a quote, and other backslashes for
      themselves.  Gives the argument and the text after it. */
  function ReadArg(t: Wide, quoted: bool, out: Wide, rule: PairRule): (r: (Wide, Wide))
    ensures |r.1| <= |t|
    ensures t != [] && !IsBlank(t[0]) ==> |r.1| < |t|
    decreases |t|
  {
    if t == [] then (out, [])
    else if IsBlank(t[0]) && !quoted then (out, t)
    else if t[0] == BACKSLASH then
      var n := Run(t);
      if n == |t| || t[n] != QUOTE then ReadArg(t[n..], quoted, out + Slashes(n), rule)
      else if n % 2 == 1 then ReadArg(t[n + 1..], quoted, out + Slashes(n / 2) + [QUOTE], rule)
      else ReadQuote(t[n..], quoted, out + Slashes(n / 2), rule)
    else if t[0] == QUOTE then ReadQuote(t, quoted, out, rule)
    else ReadArg(t[1..], quoted, out + [t[0]], rule)
  }

  /** A quote that is a delimiter. */
  function ReadQuote(t: Wide, quoted: bool, out: Wide, rule: PairRule): (r: (Wide, Wide))
    requires t != [] && t[0] == QUOTE
    ensures |r.1| < |t|
    decreases |t|, 0
  {
    if quoted && |t| > 1 && t[1] == QUOTE && !rule.ClosesAndOpens? then
      ReadArg(t[2..], rule.LiteralAndStays?, out + [QUOTE], rule)
    else ReadArg(t[1..], !quoted, out, rule)
  }

  function ReadArgs(t: Wide, rule: PairRule): seq<Wide>
    decreases |t|
  {
    var u := SkipBlanks(t);
    if u == [] then [] else
    assert !IsBlank(u[0]) by { SkipBlanksStops(t); }
    var (arg, rest) := ReadArg(u, false, [], rule);
    [arg] + ReadArgs(rest, rule)
  }

  lemma {:induction false} SkipBlanksStops(t: Wide)
    ensures SkipBlanks(t) != [] ==> !IsBlank(SkipBlanks(t)[0])
  {
    if t != [] { SkipBlanksStops(t[1..]); }
  }

  /** The program name has no escapes: it ends at the next quote, or at the next blank. */
  function ReadProgram(t: Wide): (r: (Wide, Wide)) {
    if t != [] && t[0] == QUOTE then
      var e := FindUnit(t, QUOTE, 1);
      (t[1..e], if e == |t| then [] else t[e + 1..])
    else
      var e := UntilBlank(t);
      (t[..e], t[e..])
  }

  function UntilBlank(t: Wide): (e: nat)
    ensures e <= |t| && forall i | 0 <= i < e :: !IsBlank(t[i])
    ensures e < |t| ==> IsBlank(t[e])
  {
    if t == [] || IsBlank(t[0]) then 0 else 1 + UntilBlank(t[1..])
  }

  /** The argument vector of a command line, which is passed up to its first NUL. */
  function Argv(line: Wide, rule: PairRule): seq<Wide> {
    var t := line[..FindUnit(line, NUL, 0)];
    var (program, rest) := ReadProgram(t);
    [program] + ReadArgs(rest, rule)
  }

  // ---- quoting ----------------------------------------------------------------------------------

  predicate IsSpecial(c: Unit) { c == SPACE || c == TAB || c == NEWLINE || c == VERTICAL_TAB || c == QUOTE }

  predicate Plain(s: Wide) { s != [] && forall i | 0 <= i < |s| :: !IsSpecial(s[i]) }

  /** A character other than a backslash after n of them, as it is written inside quotes. */
  function Piece(n: nat, c: Unit): Wide {
    if c == QUOTE then Slashes(2 * n + 1) + [QUOTE] else Slashes(n) + [c]
  }

  /** The inside of a quoted argument. */
  function Escaped(s: Wide): Wide
    decreases |s|
  {
    var n := Run(s);
    if n == |s| then Slashes(2 * n) else Piece(n, s[n]) + Escaped(s[n + 1..])
  }

  function Quote(s: Wide): Wide { if Plain(s) then s else [QUOTE] + Escaped(s) + [QUOTE] }

  /** An argument is written as it is exactly when it is not empty and holds no blank, tab, line feed,
      vertical tab or quote; any other is written between quotes. */
  lemma QuoteExactly(s: Wide)
    ensures Quote(s) == s <==> s != [] && forall u: Unit | u in s :: u as int !in {0x20, 0x09, 0x0A, 0x0B, 0x22}
    ensures Quote(s) != s ==> |Quote(s)| >= 2 && Quote(s)[0] == 0x22 && Quote(s)[|Quote(s)| - 1] == 0x22
  {
    hide Escaped;
    EscapedGrows(s);
    if Plain(s) {
      forall u: Unit | u in s ensures u as int !in {0x20, 0x09, 0x0A, 0x0B, 0x22} {
        var i :| 0 <= i < |s| && s[i] == u;
        assert !IsSpecial(s[i]);
      }
    } else if s != [] {
      var i :| 0 <= i < |s| && IsSpecial(s[i]);
      assert s[i] in s;
    }
  }

  lemma {:induction false} EscapedGrows(s: Wide)
    ensures |Escaped(s)| >= |s|
    decreases |s|
  {
    var n := Run(s);
    if n < |s| { EscapedGrows(s[n + 1..]); }
  }

  /** The inner loop of `QuoteArgvW`: the backslashes from `start` on. */
  method CountBackslashes(arg: Wide, start: nat) returns (it: nat)
    requires start <= |arg|
    ensures start <= it <= |arg| && Run(arg[start..]) == it - start
  {
    it := start;
    while it < |arg| && arg[it] == BACKSLASH
      invariant start <= it <= |arg|
      invariant Run(arg[start..]) == it - start + Run(arg[it..])
    {
      assert arg[it..][1..] == arg[it + 1..];
      it := it + 1;
    }
  }

  /** The branches of `QuoteArgvW` for a quote and for another character. */
  method AppendPiece(before: Wide, backslashes: nat, c: Unit) returns (out: Wide)
    ensures out == before + Piece(backslashes, c)
  {
    hide Slashes;
    out := before;
    if c == QUOTE {
      out := out + Slashes(backslashes * 2 + 1);
      out := out + [QUOTE];
    } else {
      out := out + Slashes(backslashes);
      out := out + [c];
    }
  }

  method QuoteArgvW(arg: Wide) returns (out: Wide)
    ensures out == Quote(arg)
  {
    if arg != [] && forall i | 0 <= i < |arg| :: !IsSpecial(arg[i]) { return arg; }
    hide Slashes, Run, IsSpecial, Escaping, Escaped, Piece;
    out := [QUOTE];
    var it := 0;
    EscapingStarts(arg);
    while true
      invariant 0 <= it <= |arg| && Escaping(out, arg, it)
      decreases |arg| - it
    {
      var start, before := it, out;
      it := CountBackslashes(arg, it);
      var backslashes := it - start;
      if it == |arg| {
        EscapingLast(before, arg, start);
        out := out + Slashes(backslashes * 2);
        break;
      }
      EscapingStep(before, arg, start, it);
      out := AppendPiece(out, backslashes, arg[it]);
      it := it + 1;
    }
    out := out + [QUOTE];
  }

  /** `out` is the quoted form of the argument up to `it`. */
  ghost predicate Escaping(out: Wide, arg: Wide, it: nat)
    requires it <= |arg|
  {
    out + Escaped(arg[it..]) == [QUOTE] + Escaped(arg)
  }

  lemma EscapingStarts(arg: Wide)
    ensures Escaping([QUOTE], arg, 0)
  {
    assert arg[0..] == arg;
  }

  function Tail(args: seq<Wide>): Wide {
    if args == [] then [] else [SPACE] + Quote(args[0]) + Tail(args[1..])
  }

  function Line(program: Wide, args: seq<Wide>): Wide { Quote(program) + Tail(args) }

  lemma {:induction false} TailSnoc(args: seq<Wide>, a: Wide)
    ensures Tail(args + [a]) == Tail(args) + [SPACE] + Quote(a)
  {
    hide Quote;
    if args == [] {
      assert [a][1..] == [] && args + [a] == [a];
    } else {
      TailSnoc(args[1..], a);
      assert (args + [a])[1..] == args[1..] + [a];
    }
  }

  method Build(exePath: Wide, args: seq<Wide>) returns (cmd: Wide)
    ensures cmd == Line(exePath, args)
  {
    hide Quote, Tail;
    cmd := QuoteArgvW(exePath);
    assert cmd == Line(exePath, args[..0]) by { NoTail(exePath); }
    for i := 0 to |args|
      invariant cmd == Line(exePath, args[..i])
    {
      var quoted := QuoteArgvW(args[i]);
      TailSnoc(args[..i], args[i]);
      assert args[..i + 1] == args[..i] + [args[i]];
      cmd := cmd + [SPACE];
      cmd := cmd + quoted;
    }
    assert args[..|args|] == args;
  }

  lemma NoTail(program: Wide)
    ensures Line(program, []) == Quote(program)
  {}

  // ---- backslashes ------------------------------------------------------------------------------

  lemma {:induction false} RunConcat(s: Wide, r: Wide)
    requires r == [] || r[0] != BACKSLASH
    ensures Run(s + r) == Run(s)
  {
    if s == [] {
      assert s + r == r;
    } else if s[0] == BACKSLASH {
      RunConcat(s[1..], r);
      assert (s + r)[1..] == s[1..] + r;
    }
  }

  lemma {:induction false} RunPrefix(s: Wide)
    ensures s[..Run(s)] == Slashes(Run(s))
  {
    if s != [] && s[0] == BACKSLASH {
      RunPrefix(s[1..]);
      assert s[..Run(s)] == [s[0]] + s[1..][..Run(s) - 1];
    }
  }

  lemma {:induction false} RunOfSlashes(n: nat)
    ensures Run(Slashes(n)) == n
  {
    if n > 0 {
      RunOfSlashes(n - 1);
      assert Slashes(n)[1..] == Slashes(n - 1);
    }
  }

  /** Reading n backslashes that a character other than a backslash follows. */
  lemma ReadSlashes(n: nat, r: Wide, quoted: bool, out: Wide, rule: PairRule)
    requires n > 0 && (r == [] || r[0] != BACKSLASH)
    ensures ReadArg(Slashes(n) + r, quoted, out, rule)
         == if r == [] || r[0] != QUOTE then ReadArg(r, quoted, out + Slashes(n), rule)
            else if n % 2 == 1 then ReadArg(r[1..], quoted, out + Slashes(n / 2) + [QUOTE], rule)
            else ReadQuote(r, quoted, out + Slashes(n / 2), rule)
  {
    hide ReadQuote;
    var t := Slashes(n) + r;
    RunOfSlashes(n);
    RunConcat(Slashes(n), r);
    assert t[0] == BACKSLASH && t[n..] == r && (r != [] ==> t[n + 1..] == r[1..]);
  }

  // ---- the loop of QuoteArgvW ---------------------------------------------------------------------

  lemma EscapedAll(s: Wide)
    requires Run(s) == |s|
    ensures Escaped(s) == Slashes(2 * |s|)
  {
    hide Run, Slashes;
  }

  lemma EscapedNext(s: Wide, n: nat)
    requires n == Run(s) < |s|
    ensures Escaped(s) == Piece(n, s[n]) + Escaped(s[n + 1..])
  {
    hide Run, Slashes, Piece;
  }

  lemma EscapingLast(out: Wide, arg: Wide, start: nat)
    requires start <= |arg| && Run(arg[start..]) == |arg| - start && Escaping(out, arg, start)
    ensures out + Slashes((|arg| - start) * 2) == [QUOTE] + Escaped(arg)
  {
    hide Escaped, Slashes, Run;
    EscapedAll(arg[start..]);
  }

  lemma EscapingStep(out: Wide, arg: Wide, start: nat, it: nat)
    requires start <= it < |arg| && Run(arg[start..]) == it - start && Escaping(out, arg, start)
    ensures Escaping(out + Piece(it - start, arg[it]), arg, it + 1)
  {
    hide Escaped, Piece, Run;
    var t, n := arg[start..], it - start;
    assert t[n] == arg[it] && t[n + 1..] == arg[it + 1..];
    EscapedNext(t, n);
    Regroup(out, Piece(n, arg[it]), Escaped(arg[it + 1..]));
  }

  // ---- reading a quoted argument ------------------------------------------------------------------

  /** What may follow an argument. */
  predicate Ends(r: Wide) { r == [] || IsBlank(r[0]) }

  lemma ReadEnd(r: Wide, out: Wide, rule: PairRule)
    requires Ends(r)
    ensures ReadArg(r, false, out, rule) == (out, r)
  {}

  lemma ReadClosing(r: Wide, out: Wide, rule: PairRule)
    requires Ends(r)
    ensures ReadQuote([QUOTE] + r, true, out, rule) == (out, r)
  {
    ReadEnd(r, out, rule);
    assert ([QUOTE] + r)[1..] == r;
  }

  lemma ReadChar(c: Unit, r: Wide, out: Wide, rule: PairRule)
    requires c != BACKSLASH && c != QUOTE
    ensures ReadArg([c] + r, true, out, rule) == ReadArg(r, true, out + [c], rule)
  {
    assert ([c] + r)[1..] == r;
  }

  lemma QuoteFirst(r: Wide, out: Wide, rule: PairRule)
    ensures ReadArg([QUOTE] + r, true, out, rule) == ReadQuote([QUOTE] + r, true, out, rule)
  {}

  /** The doubled backslashes before the closing quote. */
  lemma ReadLastRun(n: nat, r: Wide, out: Wide, rule: PairRule)
    requires Ends(r)
    ensures ReadArg(Slashes(2 * n) + ([QUOTE] + r), true, out, rule) == (out + Slashes(n), r)
  {
    hide ReadArg, ReadQuote;
    var q := [QUOTE] + r;
    ReadClosing(r, out + Slashes(n), rule);
    if n > 0 {
      ReadSlashes(2 * n, q, true, out, rule);
    } else {
      QuoteFirst(r, out, rule);
      assert Slashes(0) + q == q && out + Slashes(0) == out;
    }
  }

  /** The doubled backslashes and the escape before a quote inside an argument. */
  lemma ReadQuoteRun(n: nat, r: Wide, out: Wide, rule: PairRule)
    ensures ReadArg(Slashes(2 * n + 1) + ([QUOTE] + r), true, out, rule)
         == ReadArg(r, true, out + Slashes(n) + [QUOTE], rule)
  {
    hide ReadArg, ReadQuote;
    assert ([QUOTE] + r)[1..] == r;
    ReadSlashes(2 * n + 1, [QUOTE] + r, true, out, rule);
  }

  /** Backslashes before another character stand for themselves. */
  lemma ReadPlainRun(n: nat, c: Unit, r: Wide, out: Wide, rule: PairRule)
    requires c != BACKSLASH && c != QUOTE
    ensures ReadArg(Slashes(n) + ([c] + r), true, out, rule) == ReadArg(r, true, out + Slashes(n) + [c], rule)
  {
    hide ReadArg, ReadQuote;
    ReadChar(c, r, out + Slashes(n), rule);
    if n > 0 {
      ReadSlashes(n, [c] + r, true, out, rule);
    } else {
      assert Slashes(0) + ([c] + r) == [c] + r && out + Slashes(0) == out;
    }
  }

  lemma Cut(s: Wide, n: nat)
    requires n < |s|
    ensures s[..n] + [s[n]] + s[n + 1..] == s
  {}

  /** A text as its first backslashes, the next character and the rest, after `out`. */
  lemma RunFirst(s: Wide, n: nat, out: Wide)
    requires n == Run(s)
    ensures n == |s| ==> s == Slashes(n)
    ensures n < |s| ==> out + (Slashes(n) + [s[n]]) + s[n + 1..] == out + s
  {
    hide *;
    RunPrefix(s);
    if n < |s| {
      Cut(s, n);
      Regroup(out, s[..n] + [s[n]], s[n + 1..]);
    } else {
      assert s[..n] == s;
    }
  }

  /** A piece of a quoted argument is read as the backslashes and the character it stands for. */
  lemma ReadPiece(n: nat, c: Unit, r: Wide, out: Wide, rule: PairRule)
    requires c != BACKSLASH
    ensures ReadArg(Piece(n, c) + r, true, out, rule) == ReadArg(r, true, out + (Slashes(n) + [c]), rule)
  {
    hide ReadArg, Slashes;
    Regroup(out, Slashes(n), [c]);
    if c == QUOTE {
      Regroup(Slashes(2 * n + 1), [QUOTE], r);
      ReadQuoteRun(n, r, out, rule);
    } else {
      Regroup(Slashes(n), [c], r);
      ReadPlainRun(n, c, r, out, rule);
    }
  }

  /** Reading the inside of a quoted argument and its closing quote gives the argument back. */
  lemma {:induction false} ReadEscaped(s: Wide, r: Wide, out: Wide, rule: PairRule)
    requires Ends(r)
    ensures ReadArg(Escaped(s) + ([QUOTE] + r), true, out, rule) == (out + s, r)
    decreases |s|
  {
    hide ReadArg, Run, Slashes, Escaped, Piece;
    var n := Run(s);
    RunFirst(s, n, out);
    if n == |s| {
      EscapedAll(s);
      ReadLastRun(n, r, out, rule);
    } else {
      var rest := Escaped(s[n + 1..]) + ([QUOTE] + r);
      EscapedNext(s, n);
      Regroup(Piece(n, s[n]), Escaped(s[n + 1..]), [QUOTE] + r);
      ReadPiece(n, s[n], rest, out, rule);
      ReadEscaped(s[n + 1..], r, out + (Slashes(n) + [s[n]]), rule);
    }
  }

  /** The first step of reading an unquoted text: a run of backslashes or one character. */
  lemma UnquotedStep(s: Wide, r: Wide, out: Wide, rule: PairRule) returns (n: nat)
    requires s != [] && Ends(r) && forall i | 0 <= i < |s| :: !IsSpecial(s[i])
    ensures 0 < n <= |s| && ReadArg(s + r, false, out, rule) == ReadArg(s[n..] + r, false, out + s[..n], rule)
  {
    hide ReadQuote;
    var t := s + r;
    if s[0] == BACKSLASH {
      n := Run(s);
      RunConcat(s, r);
      RunPrefix(s);
      assert t[n..] == s[n..] + r;
    } else {
      n := 1;
      assert t[1..] == s[1..] + r && s[..1] == [s[0]];
    }
  }

  /** An argument that is not quoted is read up to the next blank. */
  lemma {:induction false} ReadUnquoted(s: Wide, r: Wide, out: Wide, rule: PairRule)
    requires Ends(r) && forall i | 0 <= i < |s| :: !IsSpecial(s[i])
    ensures ReadArg(s + r, false, out, rule) == (out + s, r)
    decreases |s|
  {
    hide ReadArg, IsSpecial;
    if s == [] {
      assert s + r == r && out + s == out;
      ReadEnd(r, out, rule);
    } else {
      var n := UnquotedStep(s, r, out, rule);
      ReadUnquoted(s[n..], r, out + s[..n], rule);
      assert s == s[..n] + s[n..];
      assert out + s[..n] + s[n..] == out + s;
    }
  }

  /** One argument of the launcher's command line is read back as it was. */
  lemma ReadQuoted(s: Wide, r: Wide, rule: PairRule)
    requires Ends(r)
    ensures Quote(s) != [] && !IsBlank((Quote(s) + r)[0])
    ensures ReadArg(Quote(s) + r, false, [], rule) == (s, r)
  {
    hide ReadQuote, Escaped;
    if Plain(s) {
      ReadUnquoted(s, r, [], rule);
      assert (Quote(s) + r)[0] == s[0] && [] + s == s;
    } else {
      var inside := Escaped(s) + ([QUOTE] + r);
      assert Quote(s) + r == [QUOTE] + inside;
      OpeningQuote(inside, rule);
      ReadEscaped(s, r, [], rule);
      assert [] + s == s;
    }
  }

  lemma OpeningQuote(inside: Wide, rule: PairRule)
    ensures ReadArg([QUOTE] + inside, false, [], rule) == ReadArg(inside, true, [], rule)
  {
    assert ([QUOTE] + inside)[1..] == inside;
  }

  lemma TailEnds(args: seq<Wide>)
    ensures Ends(Tail(args))
  {}

  lemma {:induction false} ReadTail(args: seq<Wide>, rule: PairRule)
    ensures ReadArgs(Tail(args), rule) == args
  {
    hide ReadArg, Quote;
    if args != [] {
      var t, rest := Tail(args), Tail(args[1..]);
      TailEnds(args[1..]);
      ReadQuoted(args[0], rest, rule);
      SkipOne(Quote(args[0]) + rest);
      assert t == [SPACE] + (Quote(args[0]) + rest);
      ReadTail(args[1..], rule);
    }
  }

  lemma SkipOne(t: Wide)
    requires t != [] && !IsBlank(t[0])
    ensures SkipBlanks([SPACE] + t) == t
  {
    assert ([SPACE] + t)[1..] == t;
  }

  // ---- the program name ---------------------------------------------------------------------------

  /** A program name that is read back: it holds no quote, and if it must be quoted, it does not
      end in a backslash. */
  predicate ProgramOk(p: Wide) {
    QUOTE !in p && (Plain(p) || p == [] || p[|p| - 1] != BACKSLASH)
  }

  lemma {:induction false} EscapedWithoutQuotes(p: Wide)
    requires QUOTE !in p
    ensures QUOTE !in Escaped(p)
    ensures Escaped(p) == p <==> p == [] || p[|p| - 1] != BACKSLASH
    ensures |Escaped(p)| >= |p|
    decreases |p|
  {
    var n := Run(p);
    RunPrefix(p);
    if n < |p| {
      assert p[n] in p;
      var rest := p[n + 1..];
      assert p == Slashes(n) + [p[n]] + rest;
      EscapedWithoutQuotes(rest);
    } else if n > 0 {
      assert p[|p| - 1] == p[..n][n - 1];
    }
  }

  lemma ReadPlainProgram(p: Wide, tail: Wide)
    requires Plain(p) && Ends(tail)
    ensures ReadProgram(p + tail) == (p, tail)
  {
    var t := p + tail;
    UntilBlankConcat(p, tail);
    assert t[0] == p[0] && t[..|p|] == p && t[|p|..] == tail;
  }

  lemma {:induction false} UntilBlankConcat(p: Wide, tail: Wide)
    requires Ends(tail) && forall i | 0 <= i < |p| :: !IsBlank(p[i])
    ensures UntilBlank(p + tail) == |p|
  {
    if p == [] {
      assert p + tail == tail;
    } else {
      UntilBlankConcat(p[1..], tail);
      assert (p + tail)[1..] == p[1..] + tail;
    }
  }

  lemma ReadQuotedProgram(inside: Wide, tail: Wide)
    requires QUOTE !in inside
    ensures ReadProgram([QUOTE] + inside + [QUOTE] + tail) == (inside, tail)
  {
    var t := [QUOTE] + inside + [QUOTE] + tail;
    var e := FindUnit(t, QUOTE, 1);
    var at := |inside| + 1;
    assert t[at] == QUOTE && forall i | 1 <= i < at :: t[i] == inside[i - 1];
    assert t[1..at] == inside && t[at + 1..] == tail;
  }

  lemma ProgramHasNoQuote(t: Wide)
    requires t != [] && t[0] == QUOTE
    ensures QUOTE !in ReadProgram(t).0
  {
    var e := FindUnit(t, QUOTE, 1);
    assert forall i | 0 <= i < e - 1 :: t[1..e][i] == t[i + 1];
  }

  lemma ReadProgramExact(p: Wide, tail: Wide)
    requires Ends(tail)
    ensures ReadProgram(Quote(p) + tail).0 == p <==> ProgramOk(p)
    ensures ProgramOk(p) ==> ReadProgram(Quote(p) + tail).1 == tail
  {
    hide ReadProgram, Escaped;
    if Plain(p) {
      ReadPlainProgram(p, tail);
    } else {
      var t := Quote(p) + tail;
      if QUOTE in p {
        ProgramHasNoQuote(t);
      } else {
        EscapedWithoutQuotes(p);
        ReadQuotedProgram(Escaped(p), tail);
      }
    }
  }

  // ---- the whole line -------------------------------------------------------------------------------

  predicate NoNul(s: Wide) { NUL !in s }

  lemma {:induction false} EscapedNoNul(s: Wide)
    requires NoNul(s)
    ensures NoNul(Escaped(s))
    decreases |s|
  {
    var n := Run(s);
    if n < |s| {
      assert s[n] in s;
      EscapedNoNul(s[n + 1..]);
    }
  }

  lemma {:induction false} TailNoNul(args: seq<Wide>)
    requires forall a | a in args :: NoNul(a)
    ensures NoNul(Tail(args))
  {
    hide Escaped;
    if args != [] {
      EscapedNoNul(args[0]);
      TailNoNul(args[1..]);
    }
  }

  lemma {:induction false} ReadArgNoNul(t: Wide, quoted: bool, out: Wide, rule: PairRule)
    requires NoNul(t) && NoNul(out)
    ensures NoNul(ReadArg(t, quoted, out, rule).0) && NoNul(ReadArg(t, quoted, out, rule).1)
    decreases |t|, 1
  {
    if t == [] || (IsBlank(t[0]) && !quoted) {
    } else if t[0] == BACKSLASH {
      var n := Run(t);
      if n == |t| || t[n] != QUOTE {
        ReadArgNoNul(t[n..], quoted, out + Slashes(n), rule);
      } else if n % 2 == 1 {
        ReadArgNoNul(t[n + 1..], quoted, out + Slashes(n / 2) + [QUOTE], rule);
      } else {
        ReadQuoteNoNul(t[n..], quoted, out + Slashes(n / 2), rule);
      }
    } else if t[0] == QUOTE {
      ReadQuoteNoNul(t, quoted, out, rule);
    } else {
      ReadArgNoNul(t[1..], quoted, out + [t[0]], rule);
    }
  }

  lemma {:induction false} ReadQuoteNoNul(t: Wide, quoted: bool, out: Wide, rule: PairRule)
    requires t != [] && t[0] == QUOTE && NoNul(t) && NoNul(out)
    ensures NoNul(ReadQuote(t, quoted, out, rule).0) && NoNul(ReadQuote(t, quoted, out, rule).1)
    decreases |t|, 0
  {
    if quoted && |t| > 1 && t[1] == QUOTE && !rule.ClosesAndOpens? {
      ReadArgNoNul(t[2..], rule.LiteralAndStays?, out + [QUOTE], rule);
    } else {
      ReadArgNoNul(t[1..], !quoted, out, rule);
    }
  }

  lemma {:induction false} SkipBlanksNoNul(t: Wide)
    requires NoNul(t)
    ensures NoNul(SkipBlanks(t))
  {
    if t != [] { SkipBlanksNoNul(t[1..]); }
  }

  lemma {:induction false} ReadArgsNoNul(t: Wide, rule: PairRule)
    requires NoNul(t)
    ensures forall a | a in ReadArgs(t, rule) :: NoNul(a)
    decreases |t|
  {
    hide ReadArg, NoNul;
    SkipBlanksNoNul(t);
    SkipBlanksStops(t);
    var u := SkipBlanks(t);
    if u != [] {
      NoNulEmpty();
      ReadArgNoNul(u, false, [], rule);
      ReadArgsNoNul(ReadArg(u, false, [], rule).1, rule);
    }
  }

  lemma NoNulEmpty()
    ensures NoNul([])
  {}

  lemma ArgvNoNul(line: Wide, rule: PairRule)
    ensures forall a | a in Argv(line, rule) :: NoNul(a)
  {
    hide ReadArgs;
    var t := line[..FindUnit(line, NUL, 0)];
    var (program, rest) := ReadProgram(t);
    assert NoNul(t) && NoNul(program) && NoNul(rest);
    ReadArgsNoNul(rest, rule);
  }

  /** Splitting the launcher's command line by the Windows rules gives back exactly the program
      and the arguments it was built from, whatever the arguments hold, if and only if nothing
      holds a NUL and the program name can be written without escapes. */
  lemma ArgvOfLine(program: Wide, args: seq<Wide>, rule: PairRule)
    ensures Argv(Line(program, args), rule) == [program] + args
       <==> NoNul(program) && (forall a | a in args :: NoNul(a)) && ProgramOk(program)
  {
    hide Quote, Tail, ReadProgram, ReadArgs, ProgramOk, NoNul, FindUnit;
    var line := Line(program, args);
    TailEnds(args);
    ReadProgramExact(program, Tail(args));
    ReadTail(args, rule);
    if NoNul(program) && forall a | a in args :: NoNul(a) {
      LineWhole(program, args);
      var (first, rest) := ReadProgram(line);
      assert Argv(line, rule) == [first] + ReadArgs(rest, rule);
      assert Argv(line, rule)[0] == first && ([program] + args)[0] == program;
    }
    if Argv(line, rule) == [program] + args {
      ArgvNoNul(line, rule);
      assert program in Argv(line, rule);
      assert forall a | a in args :: a in Argv(line, rule);
    }
  }

  lemma LineWhole(program: Wide, args: seq<Wide>)
    requires NoNul(program) && forall a | a in args :: NoNul(a)
    ensures var line := Line(program, args); line[..FindUnit(line, NUL, 0)] == line
  {
    hide Escaped, Tail;
    EscapedNoNul(program);
    TailNoNul(args);
    var line := Line(program, args);
    assert NoNul(line);
    assert FindUnit(line, NUL, 0) == |line|;
  }
}
