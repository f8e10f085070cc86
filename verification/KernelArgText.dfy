/** Splitting a kernel command line into arguments, and printing it again. */
module KernelArgText {
  import opened Options

  /** One `key` or `key=value` argument. */
  datatype Arg = Arg(key: string, value: Option<string>)

  // --- split_kernel_args ----------------------------------------------------------------

  function SkipSpaces(s: string): string {
    if s != "" && s[0] == ' ' then SkipSpaces(s[1..]) else s
  }

  /** The tokens of `s`, of which `cur` has been read; `quoted` says whether a quote is open. */
  function SplitFrom(s: string, quoted: bool, cur: string): seq<string>
    decreases |s|
  {
    if s == "" then (if cur == "" then [] else [cur])
    else if s[0] == '"' then SplitFrom(s[1..], !quoted, cur + [s[0]])
    else if s[0] == ' ' && !quoted then [cur] + SplitFrom(s[1..], false, "")
    else SplitFrom(s[1..], quoted, cur + [s[0]])
  }

  /** Split at spaces outside quotes. Repeated spaces give empty tokens; leading ones do not. */
  function Split(s: string): seq<string> {
    SplitFrom(SkipSpaces(s), false, "")
  }

  method SplitKernelArgs(s: string) returns (tokens: seq<string>)
    ensures tokens == Split(s)
  {
    tokens := [];
    var start := 0;
    while start < |s| && s[start] == ' '
      invariant 0 <= start <= |s| && SkipSpaces(s) == SkipSpaces(s[start..])
    {
      start := start + 1;
    }
    assert SkipSpaces(s) == s[start..] && s[start..start] == "";
    var iter, quoted := start, false;
    while iter < |s|
      invariant 0 <= start <= iter <= |s|
      invariant Split(s) == tokens + SplitFrom(s[iter..], quoted, s[start..iter])
    {
      assert s[iter..][1..] == s[iter + 1..];
      assert s[start..iter + 1] == s[start..iter] + [s[iter]];
      if s[iter] == '"' {
        quoted := !quoted;
      } else if s[iter] == ' ' && !quoted {
        tokens := tokens + [s[start..iter]];
        start := iter + 1;
        assert s[start..iter + 1] == "";
      }
      iter := iter + 1;
    }
    assert s[iter..] == "" && s[start..iter] == s[start..];
    if |s| > start {
      tokens := tokens + [s[start..]];
    }
  }

  // --- split_keyeq ----------------------------------------------------------------------

  /** The part before the first `=` is the key; without one there is no value. */
  function SplitKeyEq(t: string): Arg {
    if t == "" then Arg("", None)
    else if t[0] == '=' then Arg("", Some(t[1..]))
    else var rest := SplitKeyEq(t[1..]); Arg([t[0]] + rest.key, rest.value)
  }

  /** How an argument is printed. */
  function Unsplit(a: Arg): string {
    match a.value
    case None => a.key
    case Some(v) => a.key + "=" + v
  }

  lemma {:induction false} UnsplitSplit(t: string)
    ensures Unsplit(SplitKeyEq(t)) == t && '=' !in SplitKeyEq(t).key
  {
    if t != "" && t[0] != '=' {
      UnsplitSplit(t[1..]);
    }
  }

  lemma {:induction false} SplitUnsplit(a: Arg)
    requires '=' !in a.key
    ensures SplitKeyEq(Unsplit(a)) == a
    decreases |a.key|
  {
    if a.key != "" {
      var b := a.(key := a.key[1..]);
      assert Unsplit(a) == [a.key[0]] + Unsplit(b);
      assert Unsplit(a)[0] == a.key[0];
      SplitUnsplit(b);
    }
  }

  // --- parse and print ------------------------------------------------------------------

  function SplitAll(tokens: seq<string>): seq<Arg> {
    if tokens == [] then [] else SplitAll(tokens[..|tokens| - 1]) + [SplitKeyEq(tokens[|tokens| - 1])]
  }

  /** What appending a string adds: one argument for each of its tokens. */
  function AppendedBy(s: string): seq<Arg> {
    SplitAll(Split(s))
  }

  function ParseTokens(tokens: seq<string>): seq<Arg> {
    if tokens == [] then [] else ParseTokens(tokens[..|tokens| - 1]) + AppendedBy(tokens[|tokens| - 1])
  }

  /** What parsing a string gives: every token is itself appended as a string. */
  function Parse(s: string): seq<Arg> {
    ParseTokens(Split(s))
  }

  /** The arguments printed one after the other, separated by single spaces. */
  function Print(args: seq<Arg>): string {
    if args == [] then ""
    else if |args| == 1 then Unsplit(args[0])
    else Print(args[..|args| - 1]) + " " + Unsplit(args[|args| - 1])
  }

  // --- what tokens look like ------------------------------------------------------------

  /** Whether a quote is open after `t`, given whether one was open before it. */
  function QuotedAfter(t: string, quoted: bool): bool {
    if t == "" then quoted else QuotedAfter(t[..|t| - 1], quoted) != (t[|t| - 1] == '"')
  }

  /** No space of `t` is outside quotes. */
  predicate Unbroken(t: string) {
    t == "" || (Unbroken(t[..|t| - 1]) && (t[|t| - 1] == ' ' ==> QuotedAfter(t[..|t| - 1], false)))
  }

  /** Tokens as the splitter makes them: unbroken, with only the last possibly left open. */
  predicate Tokens(ts: seq<string>) {
    && (forall i :: 0 <= i < |ts| ==> Unbroken(ts[i]))
    && (forall i :: 0 <= i < |ts| - 1 ==> !QuotedAfter(ts[i], false))
  }

  lemma {:induction false} SplitFromTokens(s: string, cur: string)
    requires Unbroken(cur)
    ensures Tokens(SplitFrom(s, QuotedAfter(cur, false), cur))
    decreases |s|
  {
    if s != "" {
      var quoted, cur' := QuotedAfter(cur, false), cur + [s[0]];
      assert cur'[..|cur'| - 1] == cur;
      if s[0] == ' ' && !quoted {
        SplitFromTokens(s[1..], "");
      } else {
        SplitFromTokens(s[1..], cur');
      }
    }
  }

  /** An unbroken token read on its own, or in front of a space, comes out whole. */
  lemma {:induction false} SplitFromUnbroken(t: string, k: nat, rest: string)
    requires k <= |t| && Unbroken(t) && (rest == "" || (rest[0] == ' ' && !QuotedAfter(t, false)))
    ensures SplitFrom(t[k..] + rest, QuotedAfter(t[..k], false), t[..k])
         == (if rest == "" then (if t == "" then [] else [t]) else [t] + SplitFrom(rest[1..], false, ""))
    decreases |t| - k
  {
    if k == |t| {
      assert t[k..] + rest == rest && t[..k] == t;
    } else {
      var s := t[k..] + rest;
      assert s[0] == t[k] && s[1..] == t[k + 1..] + rest;
      assert t[..k] + [t[k]] == t[..k + 1] && t[..k + 1][..k] == t[..k];
      UnbrokenPrefix(t, k + 1);
      SplitFromUnbroken(t, k + 1, rest);
    }
  }

  lemma {:induction false} UnbrokenPrefix(t: string, k: nat)
    requires k <= |t| && Unbroken(t)
    ensures Unbroken(t[..k])
    decreases |t|
  {
    if k < |t| {
      assert t[..|t| - 1][..k] == t[..k];
      UnbrokenPrefix(t[..|t| - 1], k);
    } else {
      assert t[..k] == t;
    }
  }

  lemma UnbrokenStart(t: string)
    requires Unbroken(t) && t != ""
    ensures t[0] != ' '
  {
    UnbrokenPrefix(t, 1);
    assert t[..1][..0] == "";
  }

  /** Splitting a non-empty token again yields just that token. */
  lemma ResplitToken(t: string)
    requires Unbroken(t)
    ensures Split(t) == if t == "" then [] else [t]
  {
    if t != "" { UnbrokenStart(t); }
    assert t[0..] + "" == t && t[..0] == "";
    SplitFromUnbroken(t, 0, "");
  }

  // --- the round trip -------------------------------------------------------------------

  function NonEmpty(ts: seq<string>): seq<string> {
    if ts == [] then []
    else NonEmpty(ts[..|ts| - 1]) + if ts[|ts| - 1] == "" then [] else [ts[|ts| - 1]]
  }

  function Join(ts: seq<string>): string {
    if ts == [] then "" else if |ts| == 1 then ts[0] else ts[0] + " " + Join(ts[1..])
  }

  /** The strings the arguments are printed as. */
  function Printed(args: seq<Arg>): seq<string> {
    if args == [] then [] else Printed(args[..|args| - 1]) + [Unsplit(args[|args| - 1])]
  }

  /** Argument lists that survive being printed and parsed again. */
  predicate Printable(args: seq<Arg>) {
    && Tokens(Printed(args))
    && "" !in Printed(args)
    && forall a :: a in args ==> '=' !in a.key
  }

  lemma {:induction false} NonEmptyTokens(ts: seq<string>)
    requires Tokens(ts)
    ensures Tokens(NonEmpty(ts)) && "" !in NonEmpty(ts)
    ensures (forall t :: t in ts ==> !QuotedAfter(t, false)) ==> forall t :: t in NonEmpty(ts) ==> !QuotedAfter(t, false)
  {
    if ts != [] {
      NonEmptyTokens(ts[..|ts| - 1]);
    }
  }

  lemma AppendedByToken(t: string)
    requires Unbroken(t)
    ensures AppendedBy(t) == if t == "" then [] else [SplitKeyEq(t)]
  {
    ResplitToken(t);
    if t != "" {
      assert [t][..0] == [];
      assert SplitAll([t]) == SplitAll([]) + [SplitKeyEq(t)];
    }
  }

  lemma SplitAllSnoc(ts: seq<string>, t: string)
    ensures SplitAll(ts + [t]) == SplitAll(ts) + [SplitKeyEq(t)]
  {
    assert (ts + [t])[..|ts|] == ts;
  }

  lemma {:induction false} ParseTokensIs(ts: seq<string>)
    requires Tokens(ts)
    ensures ParseTokens(ts) == SplitAll(NonEmpty(ts))
  {
    hide Split, AppendedBy, SplitKeyEq;
    if ts != [] {
      var t, init := ts[|ts| - 1], ts[..|ts| - 1];
      ParseTokensIs(init);
      AppendedByToken(t);
      SplitAllSnoc(NonEmpty(init), t);
      assert NonEmpty(init) + [] == NonEmpty(init);
    }
  }

  lemma {:induction false} PrintedSplitAll(ts: seq<string>)
    ensures Printed(SplitAll(ts)) == ts
    ensures forall a :: a in SplitAll(ts) ==> '=' !in a.key
  {
    if ts != [] {
      var before := SplitAll(ts[..|ts| - 1]);
      PrintedSplitAll(ts[..|ts| - 1]);
      UnsplitSplit(ts[|ts| - 1]);
      assert (before + [SplitKeyEq(ts[|ts| - 1])])[..|before|] == before;
    }
  }

  lemma {:induction false} SplitAllPrinted(args: seq<Arg>)
    requires forall a :: a in args ==> '=' !in a.key
    ensures SplitAll(Printed(args)) == args
  {
    if args != [] {
      var before := Printed(args[..|args| - 1]);
      SplitAllPrinted(args[..|args| - 1]);
      SplitUnsplit(args[|args| - 1]);
      assert (before + [Unsplit(args[|args| - 1])])[..|before|] == before;
    }
  }

  lemma {:induction false} NonEmptyAll(ts: seq<string>)
    requires "" !in ts
    ensures NonEmpty(ts) == ts
  {
    if ts != [] {
      NonEmptyAll(ts[..|ts| - 1]);
    }
  }

  lemma {:induction false} JoinSnoc(ts: seq<string>, t: string)
    requires ts != []
    ensures Join(ts + [t]) == Join(ts) + " " + t
  {
    if |ts| > 1 {
      assert (ts + [t])[1..] == ts[1..] + [t];
      JoinSnoc(ts[1..], t);
    } else {
      assert (ts + [t])[1..] == [t];
    }
  }

  lemma {:induction false} PrintJoins(args: seq<Arg>)
    ensures Print(args) == Join(Printed(args)) && |Printed(args)| == |args|
  {
    if args != [] {
      PrintJoins(args[..|args| - 1]);
      if |args| > 1 { JoinSnoc(Printed(args[..|args| - 1]), Unsplit(args[|args| - 1])); }
    }
  }

  lemma {:induction false} SplitJoin(ts: seq<string>)
    requires Tokens(ts) && "" !in ts
    ensures SplitFrom(Join(ts), false, "") == ts
    ensures ts != [] ==> Join(ts) != "" && Join(ts)[0] == ts[0][0]
  {
    if ts != [] {
      var t := ts[0];
      assert t[0..] == t && t[..0] == "";
      if |ts| == 1 {
        assert t + "" == t;
        SplitFromUnbroken(t, 0, "");
      } else {
        var rest := " " + Join(ts[1..]);
        SplitJoin(ts[1..]);
        SplitFromUnbroken(t, 0, rest);
        assert Join(ts) == t + rest && rest[1..] == Join(ts[1..]);
      }
    }
  }

  /** Every result of parsing is printable. */
  lemma ParsePrintable(s: string)
    ensures Printable(Parse(s))
  {
    SplitFromTokens(SkipSpaces(s), "");
    NonEmptyTokens(Split(s));
    ParseTokensIs(Split(s));
    PrintedSplitAll(NonEmpty(Split(s)));
  }

  /** Exactly the printable lists come back from being printed and parsed. */
  lemma PrintThenParse(args: seq<Arg>)
    ensures Parse(Print(args)) == args <==> Printable(args)
  {
    hide SplitFrom, ParseTokens, NonEmpty, SplitAll, Join, Unbroken;
    if Printable(args) {
      var ts := Printed(args);
      PrintJoins(args);
      SplitJoin(ts);
      if ts != [] { UnbrokenStart(ts[0]); }
      ParseTokensIs(ts);
      NonEmptyAll(ts);
      SplitAllPrinted(args);
    } else {
      ParsePrintable(Print(args));
    }
  }

  /** Whatever the input, printing what was parsed and parsing again gives the same arguments. */
  lemma ParsePrintParse(s: string)
    ensures Parse(Print(Parse(s))) == Parse(s)
  {
    ParsePrintable(s);
    PrintThenParse(Parse(s));
  }

  /** Appending a string as it stands and parsing it agree exactly when no token is empty. */
  lemma AppendIsParse(s: string)
    ensures AppendedBy(s) == Parse(s) <==> "" !in Split(s)
  {
    var ts := Split(s);
    SplitFromTokens(SkipSpaces(s), "");
    ParseTokensIs(ts);
    PrintedSplitAll(ts);
    PrintedSplitAll(NonEmpty(ts));
    NonEmptyTokens(ts);
    if "" !in ts { NonEmptyAll(ts); }
  }

  // --- what splitting keeps -----------------------------------------------------------------

  lemma {:induction false} SkippedSpaces(s: string) returns (k: nat)
    ensures k <= |s| && SkipSpaces(s) == s[k..] && (forall i :: 0 <= i < k ==> s[i] == ' ')
    ensures k < |s| ==> s[k] != ' '
  {
    if s != "" && s[0] == ' ' {
      var j := SkippedSpaces(s[1..]);
      k := j + 1;
      assert s[k..] == s[1..][j..];
    } else {
      k := 0;
    }
  }

  /** Splitting loses no character but the separators, and one more if the string ends in one. */
  lemma {:induction false} SplitFromJoins(s: string, quoted: bool, cur: string)
    ensures var j := Join(SplitFrom(s, quoted, cur));
            && (cur + s == j || cur + s == j + " ")
            && ((s == "" || s[|s| - 1] != ' ') ==> cur + s == j)
    decreases |s|, 1
  {
    if s == "" {
      assert cur + s == cur;
    } else if s[0] == ' ' && !quoted {
      SplitAtSpace(s, cur);
    } else {
      SplitFromStep(s, quoted, cur);
      SplitFromJoins(s[1..], quoted != (s[0] == '"'), cur + [s[0]]);
      hide SplitFrom, Join;
      assert cur + [s[0]] + s[1..] == cur + s;
    }
  }

  lemma SplitFromStep(s: string, quoted: bool, cur: string)
    requires s != "" && !(s[0] == ' ' && !quoted)
    ensures SplitFrom(s, quoted, cur) == SplitFrom(s[1..], quoted != (s[0] == '"'), cur + [s[0]])
  {
  }

  lemma {:induction false} SplitAtSpace(s: string, cur: string)
    requires s != "" && s[0] == ' '
    ensures var j := Join(SplitFrom(s, false, cur));
            && (cur + s == j || cur + s == j + " ")
            && (s[|s| - 1] != ' ' ==> cur + s == j)
    decreases |s|, 0
  {
    var rest := SplitFrom(s[1..], false, "");
    assert SplitFrom(s, false, cur) == [cur] + rest;
    SplitFromJoins(s[1..], false, "");
    assert "" + s[1..] == s[1..];
    if rest == [] { EmptySplit(s[1..], false, ""); }
    JoinCons(cur, rest);
    hide SplitFrom, Join;
    assert s == " " + s[1..];
    BehindSpace(cur, s[1..], Join(rest));
  }

  lemma BehindSpace(cur: string, t: string, j: string)
    ensures cur + (" " + t) == cur + " " + t
    ensures t == j + " " ==> cur + " " + t == cur + " " + j + " "
  {
  }

  lemma JoinCons(t: string, ts: seq<string>)
    ensures Join([t] + ts) == if ts == [] then t else t + " " + Join(ts)
  {
    assert ([t] + ts)[1..] == ts;
  }

  lemma EmptySplit(s: string, quoted: bool, cur: string)
    requires SplitFrom(s, quoted, cur) == []
    ensures s == "" && cur == ""
    decreases |s|
  {
    if s != "" && !(s[0] == ' ' && !quoted) { EmptySplit(s[1..], quoted != (s[0] == '"'), cur + [s[0]]); }
  }

  /**
   The tokens, joined by single spaces, are the string without its leading spaces, and without one
   space at its end if it has one there.
   */
  lemma SplitKeeps(s: string) returns (k: nat)
    ensures k <= |s| && (forall i :: 0 <= i < k ==> s[i] == ' ') && (k < |s| ==> s[k] != ' ')
    ensures s[k..] == Join(Split(s)) || s[k..] == Join(Split(s)) + " "
    ensures s == "" || s[|s| - 1] != ' ' ==> s[k..] == Join(Split(s))
  {
    k := SkippedSpaces(s);
    SplitFromJoins(s[k..], false, "");
    assert "" + s[k..] == s[k..];
  }

  /** Spaces in front change nothing. */
  lemma SplitIgnoresLeading(s: string)
    ensures Split(" " + s) == Split(s)
  {
    assert (" " + s)[1..] == s;
  }

  lemma {:induction false} UnbrokenAppend(t: string, y: string)
    requires Unbroken(t) && '"' !in y && (QuotedAfter(t, false) || ' ' !in y)
    ensures Unbroken(t + y) && QuotedAfter(t + y, false) == QuotedAfter(t, false)
    decreases |y|
  {
    if y == "" {
      assert t + y == t;
    } else {
      hide Unbroken, QuotedAfter;
      UnbrokenAppend(t, y[..|y| - 1]);
      UnbrokenSnoc(t + y[..|y| - 1], y[|y| - 1]);
      assert t + y == t + y[..|y| - 1] + [y[|y| - 1]];
    }
  }

  lemma UnbrokenSnoc(t: string, c: char)
    ensures Unbroken(t + [c]) <==> Unbroken(t) && (c == ' ' ==> QuotedAfter(t, false))
    ensures QuotedAfter(t + [c], false) <==> QuotedAfter(t, false) != (c == '"')
  {
    assert (t + [c])[..|t|] == t;
  }

  lemma UnbrokenQuote(t: string)
    requires Unbroken(t)
    ensures Unbroken(t + "\"") && QuotedAfter(t + "\"", false) == !QuotedAfter(t, false)
  {
    UnbrokenSnoc(t, '"');
    assert t + "\"" == t + ['"'];
  }

  /** A space between double quotes does not split. */
  lemma QuotedStaysWhole(x: string, y: string)
    requires ' ' !in x && '"' !in x && '"' !in y
    ensures var t := x + "\"" + y + "\""; Split(t) == [t]
  {
    UnbrokenAppend("", x);
    assert "" + x == x;
    UnbrokenQuote(x);
    UnbrokenAppend(x + "\"", y);
    UnbrokenQuote(x + "\"" + y);
    ResplitToken(x + "\"" + y + "\"");
  }

  /** Any other space does. */
  lemma SpaceSplits(x: string, y: string)
    requires x != "" && y != "" && ' ' !in x && ' ' !in y && '"' !in x && '"' !in y
    ensures Split(x + " " + y) == [x, y]
  {
    UnbrokenAppend("", x);
    UnbrokenAppend("", y);
    assert "" + x == x && "" + y == y;
    assert [x, y][1..] == [y];
    SplitJoin([x, y]);
    assert (x + " " + y)[0] == x[0];
  }

  /** Printing as the loop of to_string does it. */
  method PrintArgs(args: seq<Arg>) returns (buf: string)
    ensures buf == Print(args)
  {
    buf := "";
    var first := true;
    for i := 0 to |args|
      invariant first == (i == 0) && buf == Print(args[..i])
    {
      if first {
        first := false;
      } else {
        buf := buf + " ";
      }
      buf := buf + args[i].key;
      if args[i].value.Some? {
        buf := buf + "=" + args[i].value.value;
      }
      assert args[..i + 1][..i] == args[..i];
    }
    assert args[..|args|] == args;
  }
}
