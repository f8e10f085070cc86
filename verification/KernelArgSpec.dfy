/** The kernel-argument operations on a plain sequence of arguments. */
module KernelArgSpec {
  import opened Options
  import opened KernelArgText

  datatype Status = Ok | NoKey | NoArg | Multiple

  function RemoveAt<T>(s: seq<T>, i: nat): seq<T>
    requires i < |s|
  {
    s[..i] + s[i + 1..]
  }

  /** The arguments with the given key, in order. */
  function WithKey(args: seq<Arg>, k: string): seq<Arg> {
    if args == [] then []
    else WithKey(args[..|args| - 1], k) + if args[|args| - 1].key == k then [args[|args| - 1]] else []
  }

  /** The arguments with any other key, in order. */
  function Others(args: seq<Arg>, k: string): seq<Arg> {
    if args == [] then []
    else Others(args[..|args| - 1], k) + if args[|args| - 1].key == k then [] else [args[|args| - 1]]
  }

  /** The position of the first argument equal to `a`, or the length. */
  function FirstArg(args: seq<Arg>, a: Arg): (i: nat)
    ensures i <= |args| && (i < |args| ==> args[i] == a)
    ensures forall j :: 0 <= j < i ==> args[j] != a
  {
    if args == [] || args[0] == a then 0 else 1 + FirstArg(args[1..], a)
  }

  /** The position of the first argument with the key, or the length. */
  function FirstKey(args: seq<Arg>, k: string): (i: nat)
    ensures i <= |args| && (i < |args| ==> args[i].key == k)
    ensures forall j :: 0 <= j < i ==> args[j].key != k
  {
    if args == [] || args[0].key == k then 0 else 1 + FirstKey(args[1..], k)
  }

  /** Delete one argument: by key alone only if that is unambiguous. */
  function DeleteOne(args: seq<Arg>, a: Arg): (seq<Arg>, Status) {
    var same := WithKey(args, a.key);
    if |same| == 0 then (args, NoKey)
    else if |same| == 1 && a.value.Some? && same[0] != a then (args, NoArg)
    else
      var target := if |same| == 1 then same[0] else a;
      var i := FirstArg(args, target);
      if i == |args| then (args, if a.value.None? then Multiple else NoArg) else (RemoveAt(args, i), Ok)
  }

  /** `key=old=new` replaces that old value; otherwise the key must have exactly one value. */
  function ReplaceValue(args: seq<Arg>, a: Arg): (seq<Arg>, Status) {
    var same := WithKey(args, a.key);
    if |same| == 0 then (args, NoKey)
    else if a.value.Some? && '=' in a.value.value then
      var change := SplitKeyEq(a.value.value);
      var i := FirstArg(args, Arg(a.key, Some(change.key)));
      if i == |args| then (args, NoArg) else (args[i := Arg(a.key, change.value)], Ok)
    else if |same| > 1 then (args, Multiple)
    else
      var i := FirstKey(args, a.key);
      if i == |args| then (args, NoKey) else (args[i := a], Ok)
  }

  /** The new argument takes the place of the first with its key; the others with that key go. */
  function ReplaceKey(args: seq<Arg>, a: Arg): seq<Arg> {
    var i := FirstKey(args, a.key);
    if i == |args| then args + [a] else args[..i] + [a] + Others(args[i + 1..], a.key)
  }

  /** The value of the last argument with the key. */
  function LastValue(args: seq<Arg>, k: string): Option<Option<string>> {
    var same := WithKey(args, k);
    if same == [] then None else Some(same[|same| - 1].value)
  }

  /** Multi-token calls stop at the first error and keep what was done before it. */
  function DeleteAll(args: seq<Arg>, tokens: seq<string>): (seq<Arg>, Status) {
    if tokens == [] then (args, Ok)
    else
      var before := DeleteAll(args, tokens[..|tokens| - 1]);
      if before.1 != Ok then before else DeleteOne(before.0, SplitKeyEq(tokens[|tokens| - 1]))
  }

  /** Once a token has failed, the rest changes nothing. */
  lemma {:induction false} DeleteStops(args: seq<Arg>, tokens: seq<string>, i: nat)
    requires i <= |tokens| && DeleteAll(args, tokens[..i]).1 != Ok
    ensures DeleteAll(args, tokens) == DeleteAll(args, tokens[..i])
    decreases |tokens|
  {
    if i < |tokens| {
      assert tokens[..|tokens| - 1][..i] == tokens[..i];
      DeleteStops(args, tokens[..|tokens| - 1], i);
    } else {
      assert tokens[..i] == tokens;
    }
  }

  lemma {:induction false} ReplaceStops(args: seq<Arg>, tokens: seq<string>, i: nat)
    requires i <= |tokens| && ReplaceAll(args, tokens[..i]).1 != Ok
    ensures ReplaceAll(args, tokens) == ReplaceAll(args, tokens[..i])
    decreases |tokens|
  {
    if i < |tokens| {
      assert tokens[..|tokens| - 1][..i] == tokens[..i];
      ReplaceStops(args, tokens[..|tokens| - 1], i);
    } else {
      assert tokens[..i] == tokens;
    }
  }

  function ReplaceAll(args: seq<Arg>, tokens: seq<string>): (seq<Arg>, Status) {
    if tokens == [] then (args, Ok)
    else
      var before := ReplaceAll(args, tokens[..|tokens| - 1]);
      if before.1 != Ok then before else ReplaceValue(before.0, SplitKeyEq(tokens[|tokens| - 1]))
  }

  // --- what the operations promise ------------------------------------------------------

  lemma {:induction false} WithKeyConcat(a: seq<Arg>, b: seq<Arg>, k: string)
    ensures WithKey(a + b, k) == WithKey(a, k) + WithKey(b, k)
    ensures Others(a + b, k) == Others(a, k) + Others(b, k)
    decreases |b|
  {
    if b == [] {
      assert a + b == a;
    } else {
      assert (a + b)[..|a + b| - 1] == a + b[..|b| - 1];
      WithKeyConcat(a, b[..|b| - 1], k);
    }
  }

  lemma {:induction false} WithKeyIn(args: seq<Arg>, k: string, x: Arg)
    ensures x in WithKey(args, k) <==> x in args && x.key == k
  {
    if args != [] {
      assert args == args[..|args| - 1] + [args[|args| - 1]];
      WithKeyIn(args[..|args| - 1], k, x);
    }
  }

  lemma {:induction false} NoneWithKey(args: seq<Arg>, k: string)
    requires forall x :: x in args ==> x.key != k
    ensures WithKey(args, k) == [] && Others(args, k) == args
  {
    if args != [] {
      var init, last := args[..|args| - 1], args[|args| - 1];
      assert args == init + [last] && last in args;
      NoneWithKey(init, k);
    }
  }

  lemma {:induction false} OthersIn(args: seq<Arg>, k: string, x: Arg)
    ensures x in Others(args, k) <==> x in args && x.key != k
  {
    if args != [] {
      assert args == args[..|args| - 1] + [args[|args| - 1]];
      OthersIn(args[..|args| - 1], k, x);
    }
  }

  lemma OthersHaveNone(args: seq<Arg>, k: string)
    ensures WithKey(Others(args, k), k) == [] && Others(Others(args, k), k) == Others(args, k)
  {
    forall x | x in Others(args, k)
      ensures x.key != k
    {
      OthersIn(args, k, x);
    }
    NoneWithKey(Others(args, k), k);
  }

  lemma Alone(x: Arg, k: string)
    ensures WithKey([x], k) == if x.key == k then [x] else []
    ensures Others([x], k) == if x.key == k then [] else [x]
  {
    assert [x][..0] == [];
  }

  /** Three parts, of which the first has none of the key and the middle is one argument. */
  lemma AroundOne(before: seq<Arg>, x: Arg, after: seq<Arg>, k: string)
    requires x.key == k && forall y :: y in before ==> y.key != k
    ensures WithKey(before + [x] + after, k) == [x] + WithKey(after, k)
    ensures Others(before + [x] + after, k) == before + Others(after, k)
  {
    hide WithKey, Others;
    NoneWithKey(before, k);
    Alone(x, k);
    WithKeyConcat(before, [x], k);
    WithKeyConcat(before + [x], after, k);
  }

  lemma FirstKeyIs(args: seq<Arg>, k: string, i: nat)
    requires i < |args| && args[i].key == k && forall j :: 0 <= j < i ==> args[j].key != k
    ensures FirstKey(args, k) == i
  {
  }

  /**
   Replacing a key leaves exactly one argument with it, where the first one was, and every
   argument with another key in its order.
   */
  lemma ReplaceKeyResult(args: seq<Arg>, a: Arg)
    ensures WithKey(ReplaceKey(args, a), a.key) == [a]
    ensures Others(ReplaceKey(args, a), a.key) == Others(args, a.key)
    ensures FirstKey(ReplaceKey(args, a), a.key) == FirstKey(args, a.key)
  {
    hide WithKey, Others;
    var k := a.key;
    var i := FirstKey(args, k);
    if i == |args| {
      NoneWithKey(args, k);
      AroundOne(args, a, [], k);
      NoneWithKey([], k);
      assert args + [a] + [] == args + [a];
    } else {
      var rest := args[i + 1..];
      assert args == args[..i] + [args[i]] + rest;
      AroundOne(args[..i], args[i], rest, k);
      AroundOne(args[..i], a, Others(rest, k), k);
      OthersHaveNone(rest, k);
    }
    FirstKeyIs(ReplaceKey(args, a), k, i);
  }

  /**
   Appending an argument and deleting it again gives back the same arguments; in the same
   order if the argument was not there before.
   */
  lemma AppendThenDelete(args: seq<Arg>, a: Arg)
    ensures DeleteOne(args + [a], a).1 == Ok
    ensures multiset(DeleteOne(args + [a], a).0) == multiset(args)
    ensures a !in args ==> DeleteOne(args + [a], a).0 == args
  {
    hide WithKey;
    var s := args + [a];
    WithKeyIn(s, a.key, a);
    assert s[|args|] == a;
    var i := FirstArg(s, a);
    assert DeleteOne(s, a) == (RemoveAt(s, i), Ok);
    RemovedOne(s, i);
    assert multiset(args) == multiset(s) - multiset{a} == multiset(RemoveAt(s, i));
    assert a !in args ==> i == |args| && s[..i] + s[i + 1..] == args;
  }

  lemma RemovedOne(s: seq<Arg>, i: nat)
    requires i < |s|
    ensures multiset(s) == multiset(RemoveAt(s, i)) + multiset{s[i]}
  {
    assert s == s[..i] + [s[i]] + s[i + 1..];
  }

  /** With a single argument of the key, deleting it is dropping the key. */
  lemma OthersOfSingle(args: seq<Arg>, k: string)
    requires |WithKey(args, k)| == 1
    ensures var i := FirstArg(args, WithKey(args, k)[0]);
            i < |args| && i == FirstKey(args, k) && RemoveAt(args, i) == Others(args, k)
  {
    hide WithKey, Others;
    var only := WithKey(args, k)[0];
    WithKeyIn(args, k, only);
    var i, j := FirstArg(args, only), FirstKey(args, k);
    WithKeyIn(args, k, args[j]);
    assert args == args[..i] + [args[i]] + args[i + 1..];
    AroundOne(args[..i], args[i], args[i + 1..], k);
    assert WithKey(args[i + 1..], k) == [];
    forall x | x in args[i + 1..]
      ensures x.key != k
    {
      WithKeyIn(args[i + 1..], k, x);
    }
    NoneWithKey(args[i + 1..], k);
  }

  /** Removing one argument with the key touches no other key. */
  lemma RemoveOneKey(args: seq<Arg>, i: nat)
    requires i < |args|
    ensures Others(RemoveAt(args, i), args[i].key) == Others(args, args[i].key)
  {
    hide WithKey, Others;
    var k := args[i].key;
    assert args == args[..i] + [args[i]] + args[i + 1..];
    Alone(args[i], k);
    WithKeyConcat(args[..i], [args[i]], k);
    WithKeyConcat(args[..i] + [args[i]], args[i + 1..], k);
    WithKeyConcat(args[..i], args[i + 1..], k);
  }

  /**
   A deletion succeeds exactly when the argument is there, or when a bare key stands for its
   only argument; the errors tell the other cases apart.
   */
  lemma DeleteOneStatus(args: seq<Arg>, a: Arg)
    ensures var r, same := DeleteOne(args, a).1, WithKey(args, a.key);
            && (r == Ok <==> a in args || (a.value.None? && |same| == 1))
            && (r == NoKey <==> same == [])
            && (r == Multiple <==> |same| > 1 && a.value.None? && a !in args)
  {
    hide WithKey, RemoveAt;
    WithKeyIn(args, a.key, a);
    var same := WithKey(args, a.key);
    if same != [] {
      WithKeyIn(args, a.key, same[0]);
      assert FirstArg(args, same[0]) < |args|;
      assert FirstArg(args, a) < |args| <==> a in args;
    }
  }

  /** It takes away one argument with the key and no other; a failed one changes nothing. */
  lemma DeleteOneFrame(args: seq<Arg>, a: Arg)
    ensures var (after, r) := DeleteOne(args, a);
            && (r != Ok ==> after == args)
            && (r == Ok ==> exists x :: x in args && x.key == a.key && multiset(args) == multiset(after) + multiset{x})
            && Others(after, a.key) == Others(args, a.key)
  {
    hide WithKey, Others, RemoveAt;
    var same := WithKey(args, a.key);
    if same != [] {
      WithKeyIn(args, a.key, same[0]);
      var target := if |same| == 1 then same[0] else a;
      var i := FirstArg(args, target);
      if i < |args| {
        RemovedOne(args, i);
        RemoveOneKey(args, i);
      }
    }
  }

  /** `key=old=new`, as opposed to `key=new`. */
  predicate NamesOld(a: Arg) {
    a.value.Some? && '=' in a.value.value
  }

  /** Exactly when a replacement succeeds, and which error it gives otherwise. */
  lemma ReplaceValueStatus(args: seq<Arg>, a: Arg)
    ensures var r, same := ReplaceValue(args, a).1, WithKey(args, a.key);
            var there := NamesOld(a) && Arg(a.key, Some(SplitKeyEq(a.value.value).key)) in args;
            && (r == NoKey <==> same == [])
            && (r == Ok <==> if NamesOld(a) then there else |same| == 1)
            && (r == NoArg <==> same != [] && NamesOld(a) && !there)
            && (r == Multiple <==> |same| > 1 && !NamesOld(a))
  {
    hide WithKey, SplitKeyEq;
    var same := WithKey(args, a.key);
    if NamesOld(a) { WithKeyIn(args, a.key, Arg(a.key, Some(SplitKeyEq(a.value.value).key))); }
    if same != [] {
      WithKeyIn(args, a.key, same[0]);
      var j :| 0 <= j < |args| && args[j] == same[0];
      assert FirstKey(args, a.key) <= j;
    }
  }

  /** One value changes in place, to the one asked for: keys, positions and other arguments stay. */
  lemma ReplaceValueResult(args: seq<Arg>, a: Arg)
    ensures var (after, r) := ReplaceValue(args, a);
            && (r != Ok ==> after == args)
            && (r == Ok ==> exists i ::
                              && 0 <= i < |args| && args[i].key == a.key
                              && after == args[i := after[i]] && after[i].key == a.key
                              && if NamesOld(a)
                                 then var change := SplitKeyEq(a.value.value);
                                      && args[i].value == Some(change.key) && after[i].value == change.value
                                      && forall j :: 0 <= j < i ==> args[j] != args[i]
                                 else after[i] == a)
  {
    hide WithKey, SplitKeyEq;
    var same := WithKey(args, a.key);
    if same != [] {
      WithKeyIn(args, a.key, same[0]);
      var j :| 0 <= j < |args| && args[j] == same[0];
      assert FirstKey(args, a.key) <= j;
    }
  }

  /** The last value is that of the argument behind which the key does not occur again. */
  lemma LastValueIs(args: seq<Arg>, k: string, i: nat)
    requires i < |args| && args[i].key == k && forall j :: i < j < |args| ==> args[j].key != k
    ensures LastValue(args, k) == Some(args[i].value)
  {
    hide WithKey;
    var after := args[i + 1..];
    assert args == args[..i] + [args[i]] + after;
    NoneWithKey(after, k);
    Alone(args[i], k);
    WithKeyConcat(args[..i], [args[i]], k);
    WithKeyConcat(args[..i] + [args[i]], after, k);
  }
}
