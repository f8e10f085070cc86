/** What each item of the list of modified paths carries. */
module DiffItems {
  import opened Options
  import opened Diffs

  /** The entry has another type: a directory against a file, or files of different kinds. */
  predicate OtherType(x: Tree, y: Tree) {
    match (x, y)
    case (File(k, _), File(l, _)) => k != l
    case (Dir(_, _), Dir(_, _)) => false
    case (_, _) => true
  }

  /**
   The path is in both trees. The item carries the checksum of the first and then that of the
   second tree, unless the type changed.
   */
  predicate ItemRight(a: seq<Entry>, b: seq<Entry>, x: Item) {
    && Has(a, x.path) && Has(b, x.path)
    && var s, t := Lookup(a, x.path).value, Lookup(b, x.path).value;
    if OtherType(s, t) then x.checksums == None
    else s.checksum != t.checksum && x.checksums == Some((s.checksum, t.checksum))
  }

  predicate AllRight(a: seq<Entry>, b: seq<Entry>, items: seq<Item>) {
    forall i :: 0 <= i < |items| ==> ItemRight(a, b, items[i])
  }

  /** No path occurs twice. */
  predicate Once(items: seq<Item>) {
    forall i, j :: 0 <= i < j < |items| ==> items[i].path != items[j].path
  }

  /** All paths begin with one of the names. */
  predicate Begin(items: seq<Item>, names: set<string>) {
    forall i :: 0 <= i < |items| ==> items[i].path != [] && items[i].path[0] in names
  }

  lemma Nested(a: seq<Entry>, b: seq<Entry>, i: nat, t: Tree, sub: seq<Item>)
    requires Proper(a) && i < |a| && a[i].tree.Dir? && t.Dir? && Find(b, a[i].name) == Some(t)
    requires AllRight(a[i].tree.children, t.children, sub) && Once(sub)
    ensures var items := ItemsUnder([a[i].name], sub);
            && AllRight(a, b, items) && Once(items) && Begin(items, {a[i].name})
            && forall j :: 0 <= j < |items| ==> |items[j].path| > 1
  {
    hide ItemRight, Proper;
    var name := a[i].name;
    var items := ItemsUnder([name], sub);
    forall j | 0 <= j < |items|
      ensures ItemRight(a, b, items[j]) && |items[j].path| > 1
    {
      NestedItem(a, b, i, t, sub[j]);
    }
    assert forall j :: 0 <= j < |items| ==> items[j].path[1..] == sub[j].path;
  }

  lemma NestedItem(a: seq<Entry>, b: seq<Entry>, i: nat, t: Tree, x: Item)
    requires Proper(a) && i < |a| && a[i].tree.Dir? && t.Dir? && Find(b, a[i].name) == Some(t)
    requires ItemRight(a[i].tree.children, t.children, x)
    ensures ItemRight(a, b, x.(path := [a[i].name] + x.path)) && x.path != []
  {
    HasSome(t.children, x.path);
    FindEntry(a, i);
    assert ([a[i].name] + x.path)[1..] == x.path;
  }

  lemma {:induction false} CompareItems(a: seq<Entry>, i: nat, b: seq<Entry>)
    requires Proper(a) && i < |a|
    ensures var items := Compare(a[i], b).modified;
            AllRight(a, b, items) && Once(items) && Begin(items, {a[i].name})
    decreases a[i], 0
  {
    hide ItemRight;
    var e := a[i];
    match Find(b, e.name)
    case None =>
    case Some(t) =>
      OwnItem(a, i, b, t);
      if e.tree.Dir? && t.Dir? {
        var sub := Diff(e.tree.children, t.children).modified;
        ChildProper(a, i);
        DiffItemsRight(e.tree.children, t.children);
        Nested(a, b, i, t, sub);
      }
  }

  lemma OwnItem(a: seq<Entry>, i: nat, b: seq<Entry>, t: Tree)
    requires Proper(a) && i < |a| && Find(b, a[i].name) == Some(t)
    ensures OtherType(a[i].tree, t) ==> ItemRight(a, b, Item([a[i].name], None))
    ensures !OtherType(a[i].tree, t) && a[i].tree.checksum != t.checksum ==>
              ItemRight(a, b, Item([a[i].name], Some((a[i].tree.checksum, t.checksum))))
  {
    FindEntry(a, i);
  }

  lemma {:induction false} CompareAllItems(a: seq<Entry>, m: nat, b: seq<Entry>)
    requires Proper(a) && m <= |a|
    ensures var items := CompareAll(a[..m], b).modified;
            && AllRight(a, b, items) && Once(items) && Begin(items, set i | 0 <= i < m :: a[i].name)
    decreases a, 1, m
  {
    hide ItemRight, Compare;
    if m > 0 {
      assert a[..m][..m - 1] == a[..m - 1];
      CompareAllItems(a, m - 1, b);
      CompareItems(a, m - 1, b);
      assert a[m - 1].name !in (set i | 0 <= i < m - 1 :: a[i].name);
    }
  }

  /** Every item is right, and no path is listed twice. */
  lemma {:induction false} DiffItemsRight(a: seq<Entry>, b: seq<Entry>)
    requires Proper(a)
    ensures AllRight(a, b, Diff(a, b).modified) && Once(Diff(a, b).modified)
    decreases a, 2
  {
    hide ItemRight, CompareAll, Proper;
    assert a[..|a|] == a;
    CompareAllItems(a, |a|, b);
    assert Diff(a, b).modified == CompareAll(a, b).modified;
  }
}
