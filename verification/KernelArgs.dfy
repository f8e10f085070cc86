/**
 The kernel-argument object of src/libostree/ostree-kernel-args.c: a list of entries in
 order, and a table from each key to the list of its entries, sharing the entry objects.
 */
module KernelArgs {
  import opened Options
  import opened KernelArgText
  import opened KernelArgSpec
  import opened KernelArgLaws

  /** An entry. Its key is fixed when it is made; its value can be replaced. */
  class Entry {
    const key: string
    var value: Option<string>

    constructor (key: string, value: Option<string>)
      ensures this.key == key && this.value == value
    {
      this.key, this.value := key, value;
    }
  }

  // --- the index, as a fact about sequences of entries ----------------------------------

  ghost predicate Distinct<T>(s: seq<T>) {
    forall i, j :: 0 <= i < j < |s| ==> s[i] != s[j]
  }

  /** The entries with the given key, in order. */
  ghost function Select(order: seq<Entry>, k: string): seq<Entry> {
    if order == [] then []
    else Select(order[..|order| - 1], k) + if order[|order| - 1].key == k then [order[|order| - 1]] else []
  }

  /** The table lists for each key exactly the entries of the order that have it. */
  ghost predicate Indexes(table: map<string, seq<Entry>>, order: seq<Entry>) {
    forall k :: if k in table then table[k] != [] && table[k] == Select(order, k) else Select(order, k) == []
  }

  /** What the entries stand for. */
  ghost function View(order: seq<Entry>): (args: seq<Arg>)
    reads order
    ensures |args| == |order| && forall i :: 0 <= i < |order| ==> args[i] == Arg(order[i].key, order[i].value)
  {
    seq(|order|, i requires 0 <= i < |order| reads order => Arg(order[i].key, order[i].value))
  }

  lemma ViewSnoc(order: seq<Entry>, e: Entry)
    ensures View(order + [e]) == View(order) + [Arg(e.key, e.value)]
  {
  }

  lemma {:induction false} SelectConcat(a: seq<Entry>, b: seq<Entry>, k: string)
    ensures Select(a + b, k) == Select(a, k) + Select(b, k)
    decreases |b|
  {
    if b == [] {
      assert a + b == a;
    } else {
      assert (a + b)[..|a + b| - 1] == a + b[..|b| - 1];
      SelectConcat(a, b[..|b| - 1], k);
    }
  }

  lemma {:induction false} SelectIn(order: seq<Entry>, k: string, e: Entry)
    ensures e in Select(order, k) <==> e in order && e.key == k
  {
    if order != [] {
      assert order == order[..|order| - 1] + [order[|order| - 1]];
      SelectIn(order[..|order| - 1], k, e);
    }
  }

  lemma SelectOne(e: Entry, k: string)
    ensures Select([e], k) == if e.key == k then [e] else []
  {
    assert [e][..0] == [];
  }

  /** Where the entry at position `i` of the order is in the list of its key. */
  lemma SelectAround(order: seq<Entry>, i: nat, k: string)
    requires i < |order|
    ensures Select(order, k) == Select(order[..i], k) + (if order[i].key == k then [order[i]] else []) + Select(order[i + 1..], k)
    ensures Select(RemoveAt(order, i), k) == Select(order[..i], k) + Select(order[i + 1..], k)
  {
    assert order == order[..i] + [order[i]] + order[i + 1..];
    SelectConcat(order[..i], [order[i]], k);
    SelectConcat(order[..i] + [order[i]], order[i + 1..], k);
    SelectConcat(order[..i], order[i + 1..], k);
    SelectOne(order[i], k);
  }

  lemma {:induction false} ViewSelect(order: seq<Entry>, k: string)
    ensures View(Select(order, k)) == WithKey(View(order), k)
  {
    if order != [] {
      var init, last := order[..|order| - 1], order[|order| - 1];
      ViewSelect(init, k);
      assert View(order)[..|order| - 1] == View(init);
      assert last.key == k ==> View(Select(init, k) + [last]) == View(Select(init, k)) + [Arg(last.key, last.value)];
    }
  }

  lemma {:induction false} SelectDistinct(order: seq<Entry>, k: string)
    requires Distinct(order)
    ensures Distinct(Select(order, k))
  {
    if order != [] {
      var init, last := order[..|order| - 1], order[|order| - 1];
      SelectDistinct(init, k);
      SelectIn(init, k, last);
    }
  }

  /** The entries with any other key, in order. */
  ghost function Rest(order: seq<Entry>, k: string): seq<Entry> {
    if order == [] then []
    else Rest(order[..|order| - 1], k) + if order[|order| - 1].key == k then [] else [order[|order| - 1]]
  }

  lemma {:induction false} RestConcat(a: seq<Entry>, b: seq<Entry>, k: string)
    ensures Rest(a + b, k) == Rest(a, k) + Rest(b, k)
    decreases |b|
  {
    if b == [] {
      assert a + b == a;
    } else {
      assert (a + b)[..|a + b| - 1] == a + b[..|b| - 1];
      RestConcat(a, b[..|b| - 1], k);
    }
  }

  lemma {:induction false} RestFacts(order: seq<Entry>, k: string)
    ensures Select(order, k) == [] ==> Rest(order, k) == order
    ensures forall e :: e in Rest(order, k) <==> e in order && e.key != k
    ensures Distinct(order) ==> Distinct(Rest(order, k))
  {
    if order != [] {
      assert order == order[..|order| - 1] + [order[|order| - 1]];
      RestFacts(order[..|order| - 1], k);
    }
  }

  lemma {:induction false} RestKeeps(order: seq<Entry>, k: string, j: string)
    ensures Select(Rest(order, k), j) == if j == k then [] else Select(order, j)
  {
    if order != [] {
      var init, last := order[..|order| - 1], order[|order| - 1];
      RestKeeps(init, k, j);
      if last.key == k {
        assert Rest(order, k) == Rest(init, k);
      } else {
        assert Rest(order, k) == Rest(init, k) + [last];
        SelectConcat(Rest(init, k), [last], j);
        SelectOne(last, j);
      }
    }
  }

  lemma {:induction false} ViewRest(order: seq<Entry>, k: string)
    ensures View(Rest(order, k)) == Others(View(order), k)
  {
    if order != [] {
      var init, last := order[..|order| - 1], order[|order| - 1];
      ViewRest(init, k);
      assert View(order)[..|order| - 1] == View(init);
      assert View(Rest(init, k) + [last]) == View(Rest(init, k)) + [Arg(last.key, last.value)];
    }
  }

  /** Taking out an entry with key `k` leaves the entries with other keys alone. */
  lemma RestRemove(order: seq<Entry>, i: nat, k: string)
    requires i < |order| && order[i].key == k
    ensures Rest(RemoveAt(order, i), k) == Rest(order, k)
  {
    hide Rest;
    assert order == order[..i] + [order[i]] + order[i + 1..];
    RestConcat(order[..i], [order[i]], k);
    RestConcat(order[..i] + [order[i]], order[i + 1..], k);
    RestConcat(order[..i], order[i + 1..], k);
    RestOne(order[i], k);
  }

  lemma RestOne(e: Entry, k: string)
    ensures Rest([e], k) == if e.key == k then [] else [e]
  {
    assert [e][..0] == [];
  }

  // --- how the operations keep the index --------------------------------------------------

  lemma AppendKeeps(table: map<string, seq<Entry>>, order: seq<Entry>, e: Entry)
    requires Indexes(table, order)
    ensures Indexes(table[e.key := (if e.key in table then table[e.key] else []) + [e]], order + [e])
  {
    forall k
      ensures Select(order + [e], k) == Select(order, k) + if k == e.key then [e] else []
    {
      SelectConcat(order, [e], k);
      SelectOne(e, k);
    }
  }

  lemma RemoveKeyKeeps(table: map<string, seq<Entry>>, order: seq<Entry>, k: string)
    requires Indexes(table, order)
    ensures Indexes(table - {k}, Rest(order, k))
  {
    forall j
      ensures Select(Rest(order, k), j) == if j == k then [] else Select(order, j)
    {
      RestKeeps(order, k, j);
    }
  }

  /** The place of an entry in its list is the number of entries of that key before it. */
  lemma PlaceInList(order: seq<Entry>, i: nat, k: string, j: nat)
    requires Distinct(order) && i < |order| && order[i].key == k
    requires j < |Select(order, k)| && Select(order, k)[j] == order[i]
    ensures j == |Select(order[..i], k)|
    ensures Select(order, k)[..j] == Select(order[..i], k)
    ensures Select(RemoveAt(order, i), k) == RemoveAt(Select(order, k), j)
  {
    SelectAround(order, i, k);
    SelectDistinct(order, k);
    assert Select(order, k)[|Select(order[..i], k)|] == order[i];
  }

  lemma RemoveOneKeeps(table: map<string, seq<Entry>>, order: seq<Entry>, i: nat, k: string, j: nat)
    requires Indexes(table, order) && Distinct(order)
    requires i < |order| && order[i].key == k && k in table && j < |table[k]| && table[k][j] == order[i] && |table[k]| > 1
    ensures Indexes(table[k := RemoveAt(table[k], j)], RemoveAt(order, i)) && Distinct(RemoveAt(order, i))
  {
    PlaceInList(order, i, k, j);
    forall m | m != k
      ensures Select(RemoveAt(order, i), m) == Select(order, m)
    {
      SelectAround(order, i, m);
    }
  }

  /** The first entry of a key's list with a value is the first such entry of the order. */
  lemma FirstInList(order: seq<Entry>, i: nat, k: string, v: Option<string>, j: nat)
    requires Distinct(order) && i < |order| && j < |Select(order, k)| && Select(order, k)[j] == order[i]
    requires order[i].value == v && forall m :: 0 <= m < j ==> Select(order, k)[m].value != v
    ensures order[i].key == k && FirstArg(View(order), Arg(k, v)) == i
  {
    SelectIn(order, k, order[i]);
    PlaceInList(order, i, k, j);
    var f := FirstArg(View(order), Arg(k, v));
    if f < i {
      assert order[f] in order[..i];
      SelectIn(order[..i], k, order[f]);
    }
  }

  lemma {:induction false} NoneInList(order: seq<Entry>, k: string, v: Option<string>)
    requires forall m :: 0 <= m < |Select(order, k)| ==> Select(order, k)[m].value != v
    ensures FirstArg(View(order), Arg(k, v)) == |order|
  {
    var f := FirstArg(View(order), Arg(k, v));
    if f < |order| {
      SelectIn(order, k, order[f]);
    }
  }

  /** The structure after replace_take on an existing key, `i` being its first position. */
  lemma ReplaceKeeps(table: map<string, seq<Entry>>, order: seq<Entry>, e: Entry, i: nat)
    requires Indexes(table, order) && Distinct(order) && e !in order
    requires i < |order| && order[i].key == e.key && forall j :: 0 <= j < i ==> order[j].key != e.key
    ensures i <= |Rest(order, e.key)|
    ensures var rest := Rest(order, e.key);
            var order' := rest[..i] + [e] + rest[i..];
            && Indexes(table[e.key := [e]], order') && Distinct(order')
            && View(order') == ReplaceKey(View(order), Arg(e.key, e.value))
  {
    hide Rest, Select, Indexes, ReplaceKey;
    var after := Rest(order[i + 1..], e.key);
    RestSplit(order, i, e.key);
    RestFacts(order, e.key);
    ReplaceIndex(table, order, e, order[..i], after);
    ReplaceView(order, e, i, after);
    var rest := Rest(order, e.key);
    assert rest[..i] == order[..i] && rest[i..] == after;
    InsertDistinct(rest, i, e);
  }

  lemma RestSplit(order: seq<Entry>, i: nat, k: string)
    requires i < |order| && order[i].key == k && forall j :: 0 <= j < i ==> order[j].key != k
    ensures Rest(order, k) == order[..i] + Rest(order[i + 1..], k)
  {
    hide Rest, Select;
    var before := order[..i];
    assert order == before + [order[i]] + order[i + 1..];
    RestConcat(before, [order[i]], k);
    RestConcat(before + [order[i]], order[i + 1..], k);
    RestOne(order[i], k);
    NoKeyBefore(before, k);
    RestFacts(before, k);
  }

  lemma InsertDistinct(s: seq<Entry>, i: nat, e: Entry)
    requires Distinct(s) && e !in s && i <= |s|
    ensures Distinct(s[..i] + [e] + s[i..])
  {
    var r := s[..i] + [e] + s[i..];
    assert forall j :: 0 <= j < |r| ==> r[j] == if j < i then s[j] else if j == i then e else s[j - 1];
  }

  lemma {:induction false} NoKeyBefore(order: seq<Entry>, k: string)
    requires forall j :: 0 <= j < |order| ==> order[j].key != k
    ensures Select(order, k) == []
  {
    if order != [] {
      NoKeyBefore(order[..|order| - 1], k);
    }
  }

  lemma ReplaceIndex(table: map<string, seq<Entry>>, order: seq<Entry>, e: Entry, before: seq<Entry>, after: seq<Entry>)
    requires Indexes(table, order) && Rest(order, e.key) == before + after
    ensures Indexes(table[e.key := [e]], before + [e] + after)
  {
    hide Select, Rest;
    forall m
      ensures Select(before + [e] + after, m) == if m == e.key then [e] else Select(order, m)
    {
      SelectConcat(before, [e], m);
      SelectConcat(before + [e], after, m);
      SelectConcat(before, after, m);
      SelectOne(e, m);
      RestKeeps(order, e.key, m);
    }
  }

  lemma ReplaceView(order: seq<Entry>, e: Entry, i: nat, after: seq<Entry>)
    requires i < |order| && order[i].key == e.key && (forall j :: 0 <= j < i ==> order[j].key != e.key)
    requires after == Rest(order[i + 1..], e.key)
    ensures View(order[..i] + [e] + after) == ReplaceKey(View(order), Arg(e.key, e.value))
  {
    var args := View(order);
    FirstKeyIs(args, e.key, i);
    ViewRest(order[i + 1..], e.key);
    assert args[i + 1..] == View(order[i + 1..]);
    assert View(order[..i] + [e] + after) == args[..i] + [Arg(e.key, e.value)] + View(after);
  }

  // --- loops over the lists ---------------------------------------------------------------

  /** Take one entry out of the list; it is always there. */
  method RemoveFrom(order: seq<Entry>, e: Entry) returns (rest: seq<Entry>, i: nat)
    requires e in order
    ensures i < |order| && order[i] == e && rest == RemoveAt(order, i)
  {
    i := 0;
    while order[i] != e
      invariant i < |order| && e !in order[..i]
      decreases |order| - i
    {
      i := i + 1;
    }
    rest := order[..i] + order[i + 1..];
  }

  method RemoveEntries(order: seq<Entry>, entries: seq<Entry>, ghost k: string) returns (rest: seq<Entry>)
    requires Distinct(order) && entries == Select(order, k)
    ensures rest == Rest(order, k)
  {
    hide Select, Rest;
    rest := order;
    for i := 0 to |entries|
      invariant Distinct(rest) && Select(rest, k) == entries[i..] && Rest(rest, k) == Rest(order, k)
    {
      assert entries[i] in Select(rest, k);
      SelectIn(rest, k, entries[i]);
      ghost var before := rest;
      var at;
      rest, at := RemoveFrom(rest, entries[i]);
      PlaceInList(before, at, k, 0);
      RestRemove(before, at, k);
    }
    RestFacts(rest, k);
  }

  /** The first entry with the given value, or the length. */
  method FindValue(entries: seq<Entry>, v: Option<string>) returns (j: nat)
    ensures j <= |entries| && (j < |entries| ==> entries[j].value == v)
    ensures forall m :: 0 <= m < j ==> entries[m].value != v
  {
    j := 0;
    while j < |entries| && entries[j].value != v
      invariant j <= |entries| && forall m :: 0 <= m < j ==> entries[m].value != v
    {
      j := j + 1;
    }
  }

  /** The first entry with the given key. */
  method FindKey(order: seq<Entry>, k: string) returns (i: nat)
    requires exists e :: e in order && e.key == k
    ensures i < |order| && order[i].key == k && forall j :: 0 <= j < i ==> order[j].key != k
  {
    i := 0;
    while order[i].key != k
      invariant i < |order| && forall j :: 0 <= j < i ==> order[j].key != k
      decreases |order| - i
    {
      i := i + 1;
    }
  }

  lemma AppendMissing(order: seq<Entry>, a: Arg)
    requires WithKey(View(order), a.key) == []
    ensures ReplaceKey(View(order), a) == View(order) + [a]
  {
    var f := FirstKey(View(order), a.key);
    if f < |order| { WithKeyIn(View(order), a.key, View(order)[f]); }
  }

  lemma ListOf(table: map<string, seq<Entry>>, order: seq<Entry>, k: string)
    requires Indexes(table, order)
    ensures k in table <==> WithKey(View(order), k) != []
    ensures k in table ==> table[k] == Select(order, k) && table[k] != [] && View(table[k]) == WithKey(View(order), k)
    ensures k in table ==> forall e :: e in table[k] ==> e in order && e.key == k
  {
    ViewSelect(order, k);
    if k in table {
      forall e | e in table[k]
        ensures e in order && e.key == k
      {
        SelectIn(order, k, e);
      }
    }
  }

  // --- the object -------------------------------------------------------------------------

  class KernelArgs {
    var order: seq<Entry>
    var table: map<string, seq<Entry>>

    ghost predicate Valid()
      reads this
    {
      Distinct(order) && Indexes(table, order)
    }

    /** The arguments in order. */
    ghost function Args(): seq<Arg>
      reads this, order
    {
      View(order)
    }

    constructor ()
      ensures Valid() && Args() == []
    {
      order, table := [], map[];
    }

    method AppendOne(token: string)
      requires Valid()
      modifies this
      ensures Valid() && Args() == old(Args()) + [SplitKeyEq(token)]
      ensures forall e :: e in order ==> e in old(order) || fresh(e)
    {
      hide Indexes, Select, SplitKeyEq;
      var a := SplitKeyEq(token);
      var entry := new Entry(a.key, a.value);
      var entries := if a.key in table then table[a.key] else [];
      AppendKeeps(table, order, entry);
      ViewSnoc(order, entry);
      table := table[a.key := entries + [entry]];
      order := order + [entry];
    }

    method Append(arg: string)
      requires Valid()
      modifies this
      ensures Valid() && Args() == old(Args()) + AppendedBy(arg)
      ensures forall e :: e in order ==> e in old(order) || fresh(e)
    {
      var tokens := SplitKernelArgs(arg);
      for i := 0 to |tokens|
        invariant Valid() && Args() == old(Args()) + SplitAll(tokens[..i])
        invariant forall e :: e in order ==> e in old(order) || fresh(e)
      {
        AppendOne(tokens[i]);
        assert tokens[..i + 1] == tokens[..i] + [tokens[i]];
        SplitAllSnoc(tokens[..i], tokens[i]);
      }
      assert tokens[..|tokens|] == tokens;
    }

    method ParseAppend(options: string)
      requires Valid()
      modifies this
      ensures Valid() && Args() == old(Args()) + Parse(options)
      ensures forall e :: e in order ==> e in old(order) || fresh(e)
    {
      var tokens := SplitKernelArgs(options);
      for i := 0 to |tokens|
        invariant Valid() && Args() == old(Args()) + ParseTokens(tokens[..i])
        invariant forall e :: e in order ==> e in old(order) || fresh(e)
      {
        Append(tokens[i]);
        assert tokens[..i + 1][..i] == tokens[..i];
      }
      assert tokens[..|tokens|] == tokens;
    }

    method DeleteKeyEntry(key: string) returns (r: Status)
      requires Valid()
      modifies this
      ensures Valid()
      ensures r == if WithKey(old(Args()), key) == [] then NoKey else Ok
      ensures Args() == if r == Ok then Others(old(Args()), key) else old(Args())
      ensures forall e :: e in order ==> e in old(order)
    {
      hide Select, Rest, WithKey, Others, Indexes;
      ListOf(table, order, key);
      if key !in table {
        return NoKey;
      }
      RestFacts(order, key);
      RemoveKeyKeeps(table, order, key);
      ViewRest(order, key);
      ghost var before := order;
      order := RemoveEntries(order, table[key], key);
      table := table - {key};
      assert View(order) == old(View(Rest(before, key)));
      return Ok;
    }

    method DeleteOne(token: string) returns (r: Status)
      requires Valid()
      modifies this
      ensures Valid() && (Args(), r) == KernelArgSpec.DeleteOne(old(Args()), SplitKeyEq(token))
      ensures forall e :: e in order ==> e in old(order)
    {
      hide Select, Rest, WithKey, Others, Indexes, SplitKeyEq;
      var a := SplitKeyEq(token);
      ListOf(table, order, a.key);
      if a.key !in table {
        return NoKey;
      }
      var entries := table[a.key];
      if |entries| == 1 {
        if a.value.Some? && entries[0].value != a.value {
          return NoArg;
        }
        OthersOfSingle(Args(), a.key);
        r := DeleteKeyEntry(a.key);
        return;
      }
      r := DeleteAmong(a);
    }

    /** Delete the first of several arguments with the same key that has the given value. */
    method DeleteAmong(a: Arg) returns (r: Status)
      requires Valid() && a.key in table && |table[a.key]| > 1
      modifies this
      ensures Valid() && (Args(), r) == KernelArgSpec.DeleteOne(old(Args()), a)
      ensures forall e :: e in order ==> e in old(order)
    {
      hide Select, WithKey, Indexes, Distinct;
      ListOf(table, order, a.key);
      var entries := table[a.key];
      var j := FindValue(entries, a.value);
      if j == |entries| {
        NoneInList(order, a.key, a.value);
        return if a.value.None? then Multiple else NoArg;
      }
      ghost var before := order;
      var i;
      order, i := RemoveFrom(order, entries[j]);
      FirstInList(before, i, a.key, a.value, j);
      RemoveOneKeeps(table, before, i, a.key, j);
      table := table[a.key := entries[..j] + entries[j + 1..]];
      assert Args() == RemoveAt(old(Args()), i);
      return Ok;
    }

    method Delete(arg: string) returns (r: Status)
      requires Valid()
      modifies this
      ensures Valid() && (Args(), r) == DeleteAll(old(Args()), Split(arg))
      ensures forall e :: e in order ==> e in old(order)
    {
      hide KernelArgSpec.DeleteOne, Indexes, Split;
      var tokens := SplitKernelArgs(arg);
      r := Ok;
      for i := 0 to |tokens|
        invariant Valid() && r == Ok && (Args(), r) == DeleteAll(old(Args()), tokens[..i])
        invariant forall e :: e in order ==> e in old(order)
      {
        assert tokens[..i + 1][..i] == tokens[..i];
        r := DeleteOne(tokens[i]);
        if r != Ok {
          DeleteStops(old(Args()), tokens, i + 1);
          return;
        }
      }
      assert tokens[..|tokens|] == tokens;
    }

    /** Give the entry at position `i` of the order another value. */
    method StoreValue(e: Entry, v: Option<string>, ghost i: nat)
      requires Valid() && i < |order| && order[i] == e
      modifies e
      ensures Valid() && Args() == old(Args())[i := Arg(e.key, v)]
    {
      e.value := v;
    }

    method ReplaceOne(token: string) returns (r: Status)
      requires Valid()
      modifies order
      ensures Valid() && (Args(), r) == ReplaceValue(old(Args()), SplitKeyEq(token))
    {
      hide Select, WithKey, Indexes, Distinct, SplitKeyEq;
      var a := SplitKeyEq(token);
      ListOf(table, order, a.key);
      if a.key !in table {
        return NoKey;
      }
      var entries := table[a.key];
      if a.value.Some? && '=' in a.value.value {
        var change := SplitKeyEq(a.value.value);
        var j := FindValue(entries, Some(change.key));
        if j == |entries| {
          NoneInList(order, a.key, Some(change.key));
          return NoArg;
        }
        ghost var i :| 0 <= i < |order| && order[i] == entries[j];
        FirstInList(order, i, a.key, Some(change.key), j);
        StoreValue(entries[j], change.value, i);
        return Ok;
      }
      if |entries| > 1 {
        return Multiple;
      }
      ghost var i :| 0 <= i < |order| && order[i] == entries[0];
      OthersOfSingle(Args(), a.key);
      FirstInList(order, i, a.key, entries[0].value, 0);
      StoreValue(entries[0], a.value, i);
      return Ok;
    }

    method NewReplace(arg: string) returns (r: Status)
      requires Valid()
      modifies order
      ensures Valid() && (Args(), r) == ReplaceAll(old(Args()), Split(arg))
    {
      hide ReplaceValue, Indexes, Split;
      var tokens := SplitKernelArgs(arg);
      r := Ok;
      for i := 0 to |tokens|
        invariant Valid() && r == Ok && (Args(), r) == ReplaceAll(old(Args()), tokens[..i])
      {
        assert tokens[..i + 1][..i] == tokens[..i];
        r := ReplaceOne(tokens[i]);
        if r != Ok {
          ReplaceStops(old(Args()), tokens, i + 1);
          return;
        }
      }
      assert tokens[..|tokens|] == tokens;
    }

    method Replace(arg: string)
      requires Valid()
      modifies this
      ensures Valid() && Args() == ReplaceKey(old(Args()), SplitKeyEq(arg))
    {
      hide Select, WithKey, Others, Indexes, SplitKeyEq, ReplaceKey;
      var a := SplitKeyEq(arg);
      ListOf(table, order, a.key);
      if a.key in table {
        ReplaceExisting(a);
      } else {
        AppendMissing(order, a);
        AppendOne(arg);
      }
    }

    method ReplaceExisting(a: Arg)
      requires Valid() && a.key in table
      modifies this
      ensures Valid() && Args() == ReplaceKey(old(Args()), a)
    {
      hide Select, Rest, WithKey, Others, Indexes, Distinct, ReplaceKey;
      ListOf(table, order, a.key);
      assert table[a.key][0] in table[a.key];
      var entry := new Entry(a.key, a.value);
      var i := FindKey(order, a.key);
      var rest := RemoveEntries(order, table[a.key], a.key);
      ReplaceKeeps(table, order, entry, i);
      var replaced := rest[..i] + [entry] + rest[i..];
      ghost var args := View(replaced);
      order, table := replaced, table[a.key := [entry]];
      assert View(order) == args;
    }

    method GetLastValue(key: string) returns (v: Option<Option<string>>)
      requires Valid()
      ensures v == LastValue(Args(), key)
    {
      ListOf(table, order, key);
      if key !in table {
        return None;
      }
      var entries := table[key];
      return Some(entries[|entries| - 1].value);
    }

    method Contains(arg: string) returns (b: bool)
      requires Valid()
      ensures b == (WithKey(Args(), SplitKeyEq(arg).key) != [])
    {
      ListOf(table, order, SplitKeyEq(arg).key);
      return SplitKeyEq(arg).key in table;
    }

    method ToString() returns (s: string)
      ensures s == Print(Args())
    {
      var args := [];
      for i := 0 to |order|
        invariant args == Args()[..i]
      {
        args := args + [Arg(order[i].key, order[i].value)];
      }
      assert Args()[..|order|] == Args();
      s := PrintArgs(args);
    }

    method Equal(other: KernelArgs) returns (b: bool)
      ensures b == (Args() == other.Args())
    {
      if |order| != |other.order| {
        assert |Args()| != |other.Args()|;
        return false;
      }
      for i := 0 to |order|
        invariant forall j :: 0 <= j < i ==> Args()[j] == other.Args()[j]
      {
        if order[i].key != other.order[i].key || order[i].value != other.order[i].value {
          assert Args()[i] != other.Args()[i];
          return false;
        }
      }
      return true;
    }

    constructor FromString(options: string)
      ensures Valid() && Args() == Parse(options)
    {
      order, table := [], map[];
      new;
      ParseAppend(options);
    }
  }

  /** Objects that compare equal have the same keys, and under each key the same arguments. */
  lemma EqualIndexes(a: KernelArgs, b: KernelArgs)
    requires a.Valid() && b.Valid() && a.Args() == b.Args()
    ensures a.table.Keys == b.table.Keys
    ensures forall k :: k in a.table ==> View(a.table[k]) == View(b.table[k])
  {
    hide WithKey, Indexes, View, Distinct;
    forall k
      ensures k in a.table <==> k in b.table
      ensures k in a.table ==> View(a.table[k]) == View(b.table[k])
    {
      ListOf(a.table, a.order, k);
      ListOf(b.table, b.order, k);
    }
  }

  /** Deleting a string that was just appended restores the object's arguments. */
  method AppendAndDelete(kargs: KernelArgs, arg: string) returns (r: Status)
    requires kargs.Valid()
    modifies kargs
    ensures kargs.Valid() && r == Ok && multiset(kargs.Args()) == old(multiset(kargs.Args()))
    ensures (forall a :: a in AppendedBy(arg) ==> a !in old(kargs.Args())) ==> kargs.Args() == old(kargs.Args())
  {
    hide DeleteAll, AppendedBy, Split, View, Indexes, Distinct;
    AppendThenDeleteAll(kargs.Args(), arg);
    kargs.Append(arg);
    r := kargs.Delete(arg);
  }
}
