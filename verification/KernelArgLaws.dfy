/** What holds of calls with several tokens, and of replacing before printing. */
module KernelArgLaws {
  import opened Options
  import opened KernelArgText
  import opened KernelArgSpec

  // --- a failing call keeps what it did before --------------------------------------------------

  lemma {:induction false} DeleteLength(args: seq<Arg>, tokens: seq<string>)
    ensures DeleteAll(args, tokens).1 == Ok ==> |DeleteAll(args, tokens).0| == |args| - |tokens|
  {
    hide DeleteOne;
    if tokens != [] {
      var before := DeleteAll(args, tokens[..|tokens| - 1]);
      DeleteLength(args, tokens[..|tokens| - 1]);
      OneLess(before.0, SplitKeyEq(tokens[|tokens| - 1]));
    }
  }

  lemma OneLess(args: seq<Arg>, a: Arg)
    ensures |DeleteOne(args, a).0| == if DeleteOne(args, a).1 == Ok then |args| - 1 else |args|
  {
    DeleteOneFrame(args, a);
    var after := DeleteOne(args, a).0;
    if DeleteOne(args, a).1 == Ok {
      assert |multiset(args)| == |args| && |multiset(after)| == |after|;
    }
  }

  /** The tokens before the failing one have each taken away one argument. */
  lemma {:induction false} DeleteFails(args: seq<Arg>, tokens: seq<string>) returns (i: nat)
    requires DeleteAll(args, tokens).1 != Ok
    ensures i < |tokens| && DeleteAll(args, tokens[..i]).1 == Ok
    ensures var before := DeleteAll(args, tokens[..i]).0;
            && DeleteAll(args, tokens) == (before, DeleteOne(before, SplitKeyEq(tokens[i])).1)
            && |before| == |args| - i
  {
    hide DeleteOne;
    var n := |tokens| - 1;
    var init := tokens[..n];
    if DeleteAll(args, init).1 != Ok {
      i := DeleteFails(args, init);
      assert init[..i] == tokens[..i];
    } else {
      i := n;
      DeleteLength(args, init);
      DeleteOneFrame(DeleteAll(args, init).0, SplitKeyEq(tokens[n]));
    }
  }

  /** So a failed call changed nothing exactly when its first token failed. */
  lemma DeleteUnchangedIff(args: seq<Arg>, tokens: seq<string>)
    requires DeleteAll(args, tokens).1 != Ok
    ensures DeleteAll(args, tokens).0 == args <==> DeleteOne(args, SplitKeyEq(tokens[0])).1 != Ok
  {
    hide DeleteOne;
    var i := DeleteFails(args, tokens);
    assert tokens[..0] == [] && DeleteAll(args, tokens[..0]) == (args, Ok);
    if i > 0 {
      assert tokens[..1][..0] == [];
      assert tokens[..1][0] == tokens[0] && DeleteAll(args, tokens[..1]) == DeleteOne(args, SplitKeyEq(tokens[0]));
      if DeleteOne(args, SplitKeyEq(tokens[0])).1 != Ok {
        assert tokens[..i][..1] == tokens[..1];
        DeleteStops(args, tokens[..i], 1);
      }
    }
  }

  lemma {:induction false} ReplaceFails(args: seq<Arg>, tokens: seq<string>) returns (i: nat)
    requires ReplaceAll(args, tokens).1 != Ok
    ensures i < |tokens| && ReplaceAll(args, tokens[..i]).1 == Ok
    ensures var before := ReplaceAll(args, tokens[..i]).0;
            ReplaceAll(args, tokens) == (before, ReplaceValue(before, SplitKeyEq(tokens[i])).1)
  {
    hide ReplaceValue;
    var n := |tokens| - 1;
    var init := tokens[..n];
    if ReplaceAll(args, init).1 != Ok {
      i := ReplaceFails(args, init);
      assert init[..i] == tokens[..i];
    } else {
      i := n;
      ReplaceValueResult(ReplaceAll(args, init).0, SplitKeyEq(tokens[n]));
    }
  }

  /** No two tokens speak of the same key. */
  predicate DistinctKeys(tokens: seq<string>) {
    forall i, j :: 0 <= i < j < |tokens| ==> SplitKeyEq(tokens[i]).key != SplitKeyEq(tokens[j]).key
  }

  /** Positions and keys stay, and so do the arguments of keys that no token speaks of. */
  lemma {:induction false} ReplaceFrame(args: seq<Arg>, tokens: seq<string>, p: nat)
    requires p < |args|
    ensures var after := ReplaceAll(args, tokens).0;
            && |after| == |args| && after[p].key == args[p].key
            && ((forall t :: t in tokens ==> SplitKeyEq(t).key != args[p].key) ==> after[p] == args[p])
  {
    hide ReplaceValue, SplitKeyEq;
    if tokens != [] {
      var init, last := tokens[..|tokens| - 1], tokens[|tokens| - 1];
      ReplaceFrame(args, init, p);
      ReplaceValueResult(ReplaceAll(args, init).0, SplitKeyEq(last));
      assert last in tokens && forall t :: t in init ==> t in tokens;
    }
  }

  /** Tokens of different keys cannot undo each other. */
  lemma {:induction false} NothingReplaced(args: seq<Arg>, tokens: seq<string>)
    requires DistinctKeys(tokens) && ReplaceAll(args, tokens).1 == Ok
    ensures ReplaceAll(args, tokens).0 == args <==>
            forall j :: 0 <= j < |tokens| ==> ReplaceValue(args, SplitKeyEq(tokens[j])).0 == args
  {
    hide ReplaceValue, SplitKeyEq;
    if tokens != [] {
      var n := |tokens| - 1;
      var init := tokens[..n];
      NothingReplaced(args, init);
      if ReplaceAll(args, tokens).0 == args { LastReplacedNothing(args, tokens); }
    }
  }

  lemma LastReplacedNothing(args: seq<Arg>, tokens: seq<string>)
    requires tokens != [] && DistinctKeys(tokens) && ReplaceAll(args, tokens) == (args, Ok)
    ensures ReplaceAll(args, tokens[..|tokens| - 1]).0 == args
  {
    hide ReplaceValue, SplitKeyEq;
    var n := |tokens| - 1;
    var init, a := tokens[..n], SplitKeyEq(tokens[n]);
    var before := ReplaceAll(args, init).0;
    ReplaceValueResult(before, a);
    var p :| 0 <= p < |before| && before[p].key == a.key && args == before[p := args[p]];
    ReplaceFrame(args, init, p);
    forall t | t in init
      ensures SplitKeyEq(t).key != args[p].key
    {
      var j :| 0 <= j < n && init[j] == t;
      assert tokens[j] == t;
    }
    assert before == args;
  }

  /**
   A failed new_replace call with tokens of different keys changed nothing exactly when each token
   before the failing one asks for the value that is already there.
   */
  lemma ReplaceUnchangedIff(args: seq<Arg>, tokens: seq<string>) returns (i: nat)
    requires ReplaceAll(args, tokens).1 != Ok && DistinctKeys(tokens)
    ensures i < |tokens| && ReplaceAll(args, tokens[..i]).1 == Ok
    ensures ReplaceValue(ReplaceAll(args, tokens[..i]).0, SplitKeyEq(tokens[i])).1 == ReplaceAll(args, tokens).1
    ensures ReplaceAll(args, tokens).0 == args <==>
            forall j :: 0 <= j < i ==> ReplaceValue(args, SplitKeyEq(tokens[j])).0 == args
  {
    hide ReplaceValue, SplitKeyEq, ReplaceAll;
    i := ReplaceFails(args, tokens);
    NothingReplaced(args, tokens[..i]);
  }

  /** Whatever the tokens, nothing changed if the first one failed. */
  lemma ReplaceFirstFails(args: seq<Arg>, tokens: seq<string>)
    requires tokens != [] && ReplaceValue(args, SplitKeyEq(tokens[0])).1 != Ok
    ensures ReplaceAll(args, tokens) == ReplaceValue(args, SplitKeyEq(tokens[0]))
    ensures ReplaceAll(args, tokens).0 == args
  {
    hide ReplaceValue;
    assert tokens[..1][..0] == [] && tokens[..1][0] == tokens[0];
    assert ReplaceAll(args, tokens[..1]) == ReplaceValue(args, SplitKeyEq(tokens[0]));
    ReplaceStops(args, tokens, 1);
    ReplaceValueResult(args, SplitKeyEq(tokens[0]));
  }

  // --- several tokens appended and deleted again ------------------------------------------------

  lemma {:induction false} DeleteAllPresent(args: seq<Arg>, tokens: seq<string>)
    requires multiset(SplitAll(tokens)) <= multiset(args)
    ensures DeleteAll(args, tokens).1 == Ok
    ensures multiset(DeleteAll(args, tokens).0) == multiset(args) - multiset(SplitAll(tokens))
  {
    hide DeleteOne, SplitKeyEq;
    if tokens != [] {
      var init, a := tokens[..|tokens| - 1], SplitKeyEq(tokens[|tokens| - 1]);
      assert multiset(SplitAll(tokens)) == multiset(SplitAll(init)) + multiset{a};
      DeleteAllPresent(args, init);
      DeleteOnePresent(DeleteAll(args, init).0, a);
    }
  }

  lemma DeleteOneFinds(args: seq<Arg>, a: Arg)
    requires a in args
    ensures FirstArg(args, a) < |args| && DeleteOne(args, a) == (RemoveAt(args, FirstArg(args, a)), Ok)
  {
    hide WithKey, RemoveAt;
    WithKeyIn(args, a.key, a);
    assert |WithKey(args, a.key)| == 1 ==> WithKey(args, a.key)[0] == a;
  }

  lemma DeleteOnePresent(args: seq<Arg>, a: Arg)
    requires a in multiset(args)
    ensures FirstArg(args, a) < |args| && DeleteOne(args, a) == (RemoveAt(args, FirstArg(args, a)), Ok)
    ensures multiset(DeleteOne(args, a).0) == multiset(args) - multiset{a}
  {
    hide DeleteOne, RemoveAt;
    DeleteOneFinds(args, a);
    RemovedOne(args, FirstArg(args, a));
  }

  lemma {:induction false} DeleteAllFresh(args: seq<Arg>, tokens: seq<string>, tail: seq<Arg>)
    requires forall a :: a in SplitAll(tokens) ==> a !in args
    ensures DeleteAll(args + SplitAll(tokens) + tail, tokens) == (args + tail, Ok)
  {
    hide DeleteOne, SplitKeyEq;
    if tokens == [] {
      assert args + [] + tail == args + tail;
    } else {
      var init, a := tokens[..|tokens| - 1], SplitKeyEq(tokens[|tokens| - 1]);
      assert SplitAll(tokens) == SplitAll(init) + [a];
      assert args + SplitAll(tokens) + tail == args + SplitAll(init) + ([a] + tail);
      DeleteAllFresh(args, init, [a] + tail);
      DeleteFirstOf(args, a, tail);
    }
  }

  lemma DeleteFirstOf(args: seq<Arg>, a: Arg, tail: seq<Arg>)
    requires a !in args
    ensures DeleteOne(args + ([a] + tail), a) == (args + tail, Ok)
  {
    hide DeleteOne;
    var s := args + ([a] + tail);
    assert s[|args|] == a;
    DeleteOnePresent(s, a);
    assert FirstArg(s, a) == |args|;
    assert s[..|args|] + s[|args| + 1..] == args + tail;
  }

  /** Deleting the string that was appended gives back the same arguments, whatever the string. */
  lemma AppendThenDeleteAll(args: seq<Arg>, s: string)
    ensures var (after, r) := DeleteAll(args + AppendedBy(s), Split(s));
            && r == Ok && multiset(after) == multiset(args)
            && ((forall a :: a in AppendedBy(s) ==> a !in args) ==> after == args)
  {
    hide DeleteAll, Split, SplitAll;
    var added := AppendedBy(s);
    assert multiset(args + added) == multiset(args) + multiset(added);
    DeleteAllPresent(args + added, Split(s));
    if forall a :: a in added ==> a !in args {
      DeleteAllFresh(args, Split(s), []);
      assert args + added + [] == args + added && args + [] == args;
    }
  }

  // --- replacing before printing ----------------------------------------------------------------

  predicate Closed(a: Arg) {
    !QuotedAfter(Unsplit(a), false)
  }

  /** An argument that can be printed at the end of a line. */
  predicate Sound(a: Arg) {
    Unsplit(a) != "" && Unbroken(Unsplit(a)) && '=' !in a.key
  }

  lemma {:induction false} PrintedAt(args: seq<Arg>, i: nat)
    requires i < |args|
    ensures |Printed(args)| == |args| && Printed(args)[i] == Unsplit(args[i])
    decreases |args|
  {
    if i < |args| - 1 {
      PrintedAt(args[..|args| - 1], i);
    } else if |args| > 1 {
      PrintedAt(args[..|args| - 1], 0);
    }
  }

  predicate AllSound(args: seq<Arg>) {
    forall i :: 0 <= i < |args| ==> Sound(args[i])
  }

  predicate AllClosed(args: seq<Arg>) {
    forall i :: 0 <= i < |args| ==> Closed(args[i])
  }

  /** All but the last. */
  predicate ClosedInside(args: seq<Arg>) {
    forall i :: 0 <= i < |args| - 1 ==> Closed(args[i])
  }

  lemma PrintableIff(args: seq<Arg>)
    ensures Printable(args) <==> AllSound(args) && ClosedInside(args)
  {
    hide Unbroken, QuotedAfter, Unsplit, Printed;
    if args == [] {
      NothingPrinted();
    } else {
      forall i | 0 <= i < |args|
        ensures |Printed(args)| == |args| && Printed(args)[i] == Unsplit(args[i])
      {
        PrintedAt(args, i);
      }
      assert |Printed(args)| == |args| by { PrintedAt(args, 0); }
    }
  }

  lemma NothingPrinted()
    ensures Printed([]) == []
  {
  }

  lemma {:induction false} OthersClosed(args: seq<Arg>, k: string)
    ensures AllSound(args) ==> AllSound(Others(args, k))
    ensures AllClosed(args) ==> AllClosed(Others(args, k))
    ensures ClosedInside(args) ==> ClosedInside(Others(args, k))
  {
    hide Sound, Closed;
    if args != [] {
      OthersClosed(args[..|args| - 1], k);
    }
  }

  /**
   Exactly when replacing leaves a list that survives printing: the argument is a token; it is
   closed unless it ends up last; and if it is added at the end, what was last is closed.
   */
  lemma ReplacePrintableIff(args: seq<Arg>, arg: string)
    requires Printable(args)
    ensures var k := SplitKeyEq(arg).key;
            var i := FirstKey(args, k);
            Printable(ReplaceKey(args, SplitKeyEq(arg))) <==>
            && arg != "" && Unbroken(arg)
            && (!QuotedAfter(arg, false) || i == |args| || Others(args[i + 1..], k) == [])
            && (i < |args| || args == [] || Closed(args[|args| - 1]))
  {
    hide Unbroken, QuotedAfter, Unsplit, Printable, Others, SplitKeyEq;
    var a := SplitKeyEq(arg);
    UnsplitSplit(arg);
    PrintableIff(args);
    PrintableIff(ReplaceKey(args, a));
    var i := FirstKey(args, a.key);
    if i == |args| {
      assert ReplaceKey(args, a) == args + [a] + [];
      AroundPrintable(args, a, []);
    } else {
      OthersClosed(args[i + 1..], a.key);
      AroundPrintable(args[..i], a, Others(args[i + 1..], a.key));
    }
  }

  lemma AroundPrintable(before: seq<Arg>, a: Arg, after: seq<Arg>)
    ensures AllSound(before + [a] + after) && ClosedInside(before + [a] + after) <==>
            && AllSound(before) && AllClosed(before) && Sound(a) && (Closed(a) || after == [])
            && AllSound(after) && ClosedInside(after)
  {
    hide Sound, Closed;
    var all := before + [a] + after;
    assert forall i :: 0 <= i < |before| ==> all[i] == before[i];
    assert all[|before|] == a;
    assert forall i :: 0 <= i < |after| ==> all[|before| + 1 + i] == after[i];
  }

  // --- inputs that show each effect -------------------------------------------------------------

  /** Two spaces in a row: appending keeps an empty argument that parsing drops. */
  lemma AppendKeepsEmpty()
    ensures AppendedBy("a  b") != Parse("a  b")
  {
    var s := "a  b";
    assert s[1..] == "  b" && s[1..][1..] == " b" && "" + [s[0]] == "a";
    assert SplitFrom(" b", false, "")[0] == "";
    assert SplitFrom("  b", false, "a") == ["a"] + SplitFrom(" b", false, "");
    assert Split(s) == SplitFrom("  b", false, "a");
    assert Split(s)[1] == "";
    assert "" in Split(s);
    AppendIsParse(s);
  }

  /** The key is deleted although the call fails. */
  lemma DeleteKeepsEffect()
    ensures DeleteAll([Arg("a", None)], ["a", "b"]) == ([], NoKey)
  {
    var a := Arg("a", None);
    SplitOne("a");
    SplitOne("b");
    Alone(a, "a");
    DeleteOnePresent([a], a);
    assert RemoveAt([a], 0) == [];
    var ts := ["a", "b"];
    assert ts[..1] == ["a"] && ["a"][..0] == [];
    assert DeleteAll([a], ["a"]) == DeleteOne([a], a);
    assert DeleteOne([], Arg("b", None)) == ([], NoKey);
  }

  lemma SplitOne(t: string)
    requires |t| == 1 && t[0] != '='
    ensures SplitKeyEq(t) == Arg(t, None)
  {
    assert t[1..] == "" && t == [t[0]] + "";
  }

  /** The value is replaced although the call fails. */
  lemma ReplaceKeepsEffect()
    ensures ReplaceAll([Arg("a", Some("1"))], ["a=2", "b"]) == ([Arg("a", Some("2"))], NoKey)
  {
    hide SplitKeyEq, WithKey, ReplaceValue;
    var was, now := Arg("a", Some("1")), Arg("a", Some("2"));
    assert SplitKeyEq("a=2") == now by {
      SplitUnsplit(now);
      assert Unsplit(now) == "a=2";
    }
    SplitOne("b");
    ReplaceOnly(was, now);
    ReplaceMissing(now, Arg("b", None));
    var ts := ["a=2", "b"];
    assert ts[..1] == ["a=2"] && ["a=2"][..0] == [];
    assert ReplaceAll([was], ["a=2"]) == ReplaceValue([was], now);
  }

  /** Tokens of one key can undo each other: the call fails and nothing has changed. */
  lemma ReplaceUndoes()
    ensures ReplaceAll([Arg("a", Some("1"))], ["a=2", "a=1", "b"]) == ([Arg("a", Some("1"))], NoKey)
    ensures ReplaceValue([Arg("a", Some("1"))], SplitKeyEq("a=2")).0 != [Arg("a", Some("1"))]
  {
    hide SplitKeyEq, WithKey, ReplaceValue;
    var was, now := Arg("a", Some("1")), Arg("a", Some("2"));
    assert SplitKeyEq("a=2") == now && SplitKeyEq("a=1") == was by {
      SplitUnsplit(now);
      SplitUnsplit(was);
      assert Unsplit(now) == "a=2" && Unsplit(was) == "a=1";
    }
    SplitOne("b");
    ReplaceOnly(was, now);
    ReplaceOnly(now, was);
    ReplaceMissing(was, Arg("b", None));
    var ts := ["a=2", "a=1", "b"];
    assert ts[..2] == ["a=2", "a=1"] && ts[..2][..1] == ["a=2"] && ["a=2"][..0] == [];
    assert ReplaceAll([was], ["a=2"]) == ([now], Ok);
    assert ReplaceAll([was], ts[..2]) == ([was], Ok);
  }

  lemma ReplaceOnly(was: Arg, now: Arg)
    requires was.key == now.key && !NamesOld(now)
    ensures ReplaceValue([was], now) == ([now], Ok)
  {
    Alone(was, now.key);
    assert [was][0 := now] == [now];
  }

  lemma ReplaceMissing(was: Arg, now: Arg)
    requires was.key != now.key
    ensures ReplaceValue([was], now) == ([was], NoKey)
  {
    Alone(was, now.key);
  }

  lemma {:induction false} NoQuotes(t: string)
    requires '"' !in t
    ensures !QuotedAfter(t, false)
  {
    if t != "" { NoQuotes(t[..|t| - 1]); }
  }

  /**
   With several values of a key, a plain `key=new` is refused even if one of them is the bare key,
   which the comment on the function says it would replace.
   */
  lemma ReplaceNeedsOld()
    ensures ReplaceValue([Arg("a", None), Arg("a", Some("1"))], Arg("a", Some("2"))).1 == Multiple
  {
    hide WithKey, ReplaceValue;
    var bare, one := Arg("a", None), Arg("a", Some("1"));
    Alone(bare, "a");
    Alone(one, "a");
    WithKeyConcat([bare], [one], "a");
    assert [bare] + [one] == [bare, one];
    ReplaceValueStatus([bare, one], Arg("a", Some("2")));
  }

  /** An argument with a space outside quotes cannot be read back. */
  lemma ReplaceUnprintable(args: seq<Arg>)
    requires Printable(args)
    ensures !Printable(ReplaceKey(args, SplitKeyEq("a=b c")))
    ensures Parse(Print(ReplaceKey(args, SplitKeyEq("a=b c")))) != ReplaceKey(args, SplitKeyEq("a=b c"))
  {
    var arg := "a=b c";
    if Unbroken(arg) {
      UnbrokenPrefix(arg, 4);
      assert arg[..4][..3] == arg[..3];
      NoQuotes(arg[..3]);
    }
    ReplacePrintableIff(args, arg);
    PrintThenParse(ReplaceKey(args, SplitKeyEq(arg)));
  }
}
