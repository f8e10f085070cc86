/** The tree diff of src/libostree/ostree-diff.c. */
module Diffs {
  import opened Options

  /** What a directory enumeration shows: names with what they stand for. */
  datatype Tree = File(kind: nat, checksum: Checksum) | Dir(checksum: Checksum, children: seq<Entry>)
  datatype Entry = Entry(name: Name, tree: Tree)

  /** The three lists. A modified item carries both checksums unless the type changed. */
  datatype Item = Item(path: Path, checksums: Option<(Checksum, Checksum)>)
  datatype Lists = Lists(modified: seq<Item>, removed: seq<Path>, added: seq<Path>)

  const NOTHING := Lists([], [], [])

  function Plus(x: Lists, y: Lists): Lists {
    Lists(x.modified + y.modified, x.removed + y.removed, x.added + y.added)
  }

  function Under(path: Path, ps: seq<Path>): (r: seq<Path>)
    ensures |r| == |ps| && forall i :: 0 <= i < |ps| ==> r[i] == path + ps[i]
  {
    seq(|ps|, i requires 0 <= i < |ps| => path + ps[i])
  }

  function ItemsUnder(path: Path, items: seq<Item>): (r: seq<Item>)
    ensures |r| == |items| && forall i :: 0 <= i < |items| ==> r[i] == items[i].(path := path + items[i].path)
  {
    seq(|items|, i requires 0 <= i < |items| => items[i].(path := path + items[i].path))
  }

  function ListsUnder(path: Path, l: Lists): Lists {
    Lists(ItemsUnder(path, l.modified), Under(path, l.removed), Under(path, l.added))
  }

  function Find(es: seq<Entry>, name: string): Option<Tree> {
    if es == [] then None else if es[0].name == name then Some(es[0].tree) else Find(es[1..], name)
  }

  predicate SameType(x: Tree, y: Tree) {
    (x.Dir? && y.Dir?) || (x.File? && y.File? && x.kind == y.kind)
  }

  // --- the three loops, as functions --------------------------------------------------------

  /** diff_add_dir_recurse: every path below a directory. */
  function Everything(es: seq<Entry>): seq<Path>
    decreases es, 1
  {
    if es == [] then [] else Everything(es[..|es| - 1]) + EverythingOf(es[|es| - 1])
  }

  function EverythingOf(e: Entry): seq<Path>
    decreases e, 0
  {
    [[e.name]] + if e.tree.Dir? then Under([e.name], Everything(e.tree.children)) else []
  }

  /** One round of the loop over the first directory. */
  function Compare(e: Entry, b: seq<Entry>): Lists
    decreases e, 0
  {
    match Find(b, e.name)
    case None => NOTHING.(removed := [[e.name]])
    case Some(t) =>
      if !SameType(e.tree, t) then NOTHING.(modified := [Item([e.name], None)])
      else
        Plus(if e.tree.checksum == t.checksum then NOTHING
             else NOTHING.(modified := [Item([e.name], Some((e.tree.checksum, t.checksum)))]),
             if e.tree.Dir? then ListsUnder([e.name], Diff(e.tree.children, t.children)) else NOTHING)
  }

  function CompareAll(xs: seq<Entry>, b: seq<Entry>): Lists
    decreases xs, 1
  {
    if xs == [] then NOTHING else Plus(CompareAll(xs[..|xs| - 1], b), Compare(xs[|xs| - 1], b))
  }

  /** The loop over the second directory. */
  function AddAll(a: seq<Entry>, ys: seq<Entry>): seq<Path> {
    if ys == [] then []
    else
      AddAll(a, ys[..|ys| - 1])
      + if Find(a, ys[|ys| - 1].name).None? then EverythingOf(ys[|ys| - 1]) else []
  }

  /** The full comparison of two directories, without the shortcut. */
  function Diff(a: seq<Entry>, b: seq<Entry>): Lists
    decreases a, 2
  {
    Plus(CompareAll(a, b), NOTHING.(added := AddAll(a, b)))
  }

  // --- what the lists mean --------------------------------------------------------------------

  /** No name twice in a directory. */
  predicate Proper(es: seq<Entry>) {
    && (forall i, j :: 0 <= i < j < |es| ==> es[i].name != es[j].name)
    && forall i :: 0 <= i < |es| && es[i].tree.Dir? ==> Proper(es[i].tree.children)
  }

  /** What a path below a directory stands for. */
  function Lookup(es: seq<Entry>, p: Path): Option<Tree>
    decreases |p|
  {
    if p == [] then None
    else
      match Find(es, p[0])
      case None => None
      case Some(t) =>
        if |p| == 1 then Some(t) else if t.Dir? then Lookup(t.children, p[1..]) else None
  }

  predicate IsDir(es: seq<Entry>, p: Path) {
    p == [] || (Lookup(es, p).Some? && Lookup(es, p).value.Dir?)
  }

  predicate Has(es: seq<Entry>, p: Path) {
    Lookup(es, p).Some?
  }

  predicate Differ(x: Tree, y: Tree) {
    !SameType(x, y) || x.checksum != y.checksum
  }

  /** In the first tree, in a directory the trees share, and not in the second. */
  predicate IsRemoved(a: seq<Entry>, b: seq<Entry>, p: Path) {
    p != [] && Has(a, p) && !Has(b, p) && IsDir(b, p[..|p| - 1])
  }

  /** In both trees, and different in type or checksum. */
  predicate IsModified(a: seq<Entry>, b: seq<Entry>, p: Path) {
    Has(a, p) && Has(b, p) && Differ(Lookup(a, p).value, Lookup(b, p).value)
  }

  /** In the second tree, at or below something missing from a directory the trees share. */
  ghost predicate IsAdded(a: seq<Entry>, b: seq<Entry>, p: Path) {
    Has(b, p) && exists k :: 0 <= k < |p| && IsDir(a, p[..k]) && !Has(a, p[..k + 1])
  }

  lemma {:induction false} FindEntry(es: seq<Entry>, i: nat)
    requires i < |es| && Proper(es)
    ensures Find(es, es[i].name) == Some(es[i].tree)
    decreases i
  {
    if i > 0 {
      assert Proper(es[1..]);
      FindEntry(es[1..], i - 1);
      assert es[0].name != es[i].name;
    }
  }

  lemma {:induction false} FindIs(es: seq<Entry>, name: string)
    ensures Find(es, name).Some? ==> exists i :: 0 <= i < |es| && es[i] == Entry(name, Find(es, name).value)
    ensures Find(es, name).None? ==> forall i :: 0 <= i < |es| ==> es[i].name != name
  {
    if es != [] && es[0].name != name {
      FindIs(es[1..], name);
      if Find(es, name).Some? {
        var i :| 0 <= i < |es[1..]| && es[1..][i] == Entry(name, Find(es, name).value);
        assert es[i + 1] == Entry(name, Find(es, name).value);
      }
    }
  }

  lemma InUnder(n: string, ps: seq<Path>, p: Path)
    ensures p in Under([n], ps) <==> p != [] && p[0] == n && p[1..] in ps
  {
    if p in Under([n], ps) {
      var i :| 0 <= i < |ps| && Under([n], ps)[i] == p;
      assert p[1..] == ps[i];
    }
    if p != [] && p[0] == n && p[1..] in ps {
      var i :| 0 <= i < |ps| && ps[i] == p[1..];
      assert Under([n], ps)[i] == p;
    }
  }

  /** A child of a proper directory is proper. */
  lemma FoundProper(es: seq<Entry>, name: string)
    requires Proper(es) && Find(es, name).Some? && Find(es, name).value.Dir?
    ensures Proper(Find(es, name).value.children)
  {
    FindIs(es, name);
  }

  lemma ChildProper(es: seq<Entry>, i: nat)
    requires Proper(es) && i < |es| && es[i].tree.Dir?
    ensures Proper(es[i].tree.children)
  {
  }

  // Everything.

  lemma {:induction false} InEverything(es: seq<Entry>, p: Path)
    requires Proper(es)
    ensures p in Everything(es) <==> Has(es, p)
    decreases |p|
  {
    EverythingIs(es, p);
    if p != [] {
      FindIs(es, p[0]);
      if Find(es, p[0]).Some? {
        var e := Entry(p[0], Find(es, p[0]).value);
        EverythingOfIs(e, p);
        if e.tree.Dir? {
          FoundProper(es, p[0]);
          InEverything(e.tree.children, p[1..]);
        }
      }
      forall i | 0 <= i < |es|
        ensures p in EverythingOf(es[i]) ==> es[i].name == p[0]
      {
        EverythingOfIs(es[i], p);
      }
      forall i | 0 <= i < |es| && es[i].name == p[0]
        ensures Find(es, p[0]) == Some(es[i].tree)
      {
        FindEntry(es, i);
      }
    } else {
      forall i | 0 <= i < |es|
        ensures p !in EverythingOf(es[i])
      {
        EverythingOfIs(es[i], p);
      }
    }
  }

  lemma {:induction false} EverythingIs(es: seq<Entry>, p: Path)
    ensures p in Everything(es) <==> exists i :: 0 <= i < |es| && p in EverythingOf(es[i])
  {
    if es != [] {
      var init := es[..|es| - 1];
      EverythingIs(init, p);
      assert forall i :: 0 <= i < |init| ==> es[i] == init[i];
      if p in Everything(init) {
        var i :| 0 <= i < |init| && p in EverythingOf(init[i]);
        assert p in EverythingOf(es[i]);
      }
    }
  }

  lemma EverythingOfIs(e: Entry, p: Path)
    ensures p in EverythingOf(e) <==>
            p != [] && p[0] == e.name && (|p| == 1 || (e.tree.Dir? && p[1..] in Everything(e.tree.children)))
  {
    if e.tree.Dir? { InUnder(e.name, Everything(e.tree.children), p); }
    assert p in EverythingOf(e) <==> p == [e.name] || (e.tree.Dir? && p in Under([e.name], Everything(e.tree.children)));
    if p != [] && |p| == 1 { assert p == [p[0]]; }
    if |p| == 1 && e.tree.Dir? && p[1..] in Everything(e.tree.children) { assert p == [p[0]]; }
  }

  // The comparison loop.

  ghost predicate Modifies(l: Lists, p: Path) {
    exists i :: 0 <= i < |l.modified| && l.modified[i].path == p
  }

  lemma ModifiesPlus(x: Lists, y: Lists, p: Path)
    ensures Modifies(Plus(x, y), p) <==> Modifies(x, p) || Modifies(y, p)
  {
    var m := x.modified + y.modified;
    if Modifies(x, p) {
      var i :| 0 <= i < |x.modified| && x.modified[i].path == p;
      assert m[i].path == p;
    }
    if Modifies(y, p) {
      var i :| 0 <= i < |y.modified| && y.modified[i].path == p;
      assert m[|x.modified| + i].path == p;
    }
  }

  lemma ModifiesUnder(n: string, l: Lists, p: Path)
    ensures Modifies(ListsUnder([n], l), p) <==> p != [] && p[0] == n && Modifies(l, p[1..])
  {
    var u := ListsUnder([n], l);
    if Modifies(u, p) {
      var i :| 0 <= i < |u.modified| && u.modified[i].path == p;
      assert l.modified[i].path == p[1..];
    }
    if p != [] && p[0] == n && Modifies(l, p[1..]) {
      var i :| 0 <= i < |l.modified| && l.modified[i].path == p[1..];
      assert u.modified[i].path == p;
    }
  }

  /** A path in one of the lists of a round of the loop. */
  ghost predicate Listed(l: Lists, p: Path) {
    Modifies(l, p) || p in l.removed || p in l.added
  }

  /** What one round reports, one level down. */
  lemma CompareIs(e: Entry, b: seq<Entry>, p: Path)
    ensures Listed(Compare(e, b), p) ==> p != [] && p[0] == e.name
    ensures p in Compare(e, b).removed <==>
            p != [] && p[0] == e.name &&
            match Find(b, e.name)
            case None => |p| == 1
            case Some(t) => e.tree.Dir? && t.Dir? && p[1..] in Diff(e.tree.children, t.children).removed
    ensures p in Compare(e, b).added <==>
            p != [] && p[0] == e.name && Find(b, e.name).Some? && e.tree.Dir? && Find(b, e.name).value.Dir?
            && p[1..] in Diff(e.tree.children, Find(b, e.name).value.children).added
    ensures Modifies(Compare(e, b), p) <==>
            p != [] && p[0] == e.name && Find(b, e.name).Some? &&
            var t := Find(b, e.name).value;
            (|p| == 1 && Differ(e.tree, t)) || (e.tree.Dir? && t.Dir? && Modifies(Diff(e.tree.children, t.children), p[1..]))
  {
    var c := Compare(e, b);
    assert |p| == 1 ==> p == [p[0]];
    match Find(b, e.name)
    case None =>
      assert c.modified == [];
    case Some(t) =>
      if !SameType(e.tree, t) {
        assert Modifies(c, p) <==> c.modified[0].path == p;
      } else {
        var own := if e.tree.checksum == t.checksum then NOTHING
                   else NOTHING.(modified := [Item([e.name], Some((e.tree.checksum, t.checksum)))]);
        var sub := if e.tree.Dir? then ListsUnder([e.name], Diff(e.tree.children, t.children)) else NOTHING;
        assert Modifies(own, p) <==> Differ(e.tree, t) && p == [e.name] by {
          if Differ(e.tree, t) { assert own.modified[0].path == [e.name]; }
        }
        ModifiesPlus(own, sub, p);
        if e.tree.Dir? {
          var d := Diff(e.tree.children, t.children);
          ModifiesUnder(e.name, d, p);
          InUnder(e.name, d.removed, p);
          InUnder(e.name, d.added, p);
        }
      }
  }

  lemma {:induction false} CompareAllIs(xs: seq<Entry>, b: seq<Entry>, p: Path)
    ensures p in CompareAll(xs, b).removed <==> exists i :: 0 <= i < |xs| && p in Compare(xs[i], b).removed
    ensures p in CompareAll(xs, b).added <==> exists i :: 0 <= i < |xs| && p in Compare(xs[i], b).added
    ensures Modifies(CompareAll(xs, b), p) <==> exists i :: 0 <= i < |xs| && Modifies(Compare(xs[i], b), p)
  {
    hide Compare, Modifies;
    if xs != [] {
      var init, last := xs[..|xs| - 1], xs[|xs| - 1];
      CompareAllIs(init, b, p);
      ModifiesPlus(CompareAll(init, b), Compare(last, b), p);
      assert forall i :: 0 <= i < |init| ==> xs[i] == init[i];
      assert forall i :: 0 <= i < |xs| ==> i < |init| || xs[i] == last;
    } else {
      assert !Modifies(NOTHING, p) by { NothingModified(p); }
    }
  }

  lemma NothingModified(p: Path)
    ensures !Modifies(NOTHING, p)
  {
  }

  /** Only the round for the first component of a path can list it. */
  lemma CompareAllAt(a: seq<Entry>, b: seq<Entry>, p: Path)
    requires Proper(a)
    ensures (p == [] || Find(a, p[0]).None?) ==>
              p !in CompareAll(a, b).removed && p !in CompareAll(a, b).added && !Modifies(CompareAll(a, b), p)
    ensures p != [] && Find(a, p[0]).Some? ==>
              var c := Compare(Entry(p[0], Find(a, p[0]).value), b);
              && (p in CompareAll(a, b).removed <==> p in c.removed)
              && (p in CompareAll(a, b).added <==> p in c.added)
              && (Modifies(CompareAll(a, b), p) <==> Modifies(c, p))
  {
    hide Compare, Modifies;
    CompareAllIs(a, b, p);
    forall i | 0 <= i < |a|
      ensures p in Compare(a[i], b).removed || p in Compare(a[i], b).added || Modifies(Compare(a[i], b), p) ==>
                p != [] && p[0] == a[i].name && Find(a, p[0]) == Some(a[i].tree)
    {
      CompareIs(a[i], b, p);
      FindEntry(a, i);
    }
    if p != [] && Find(a, p[0]).Some? {
      FindIs(a, p[0]);
      var i :| 0 <= i < |a| && a[i] == Entry(p[0], Find(a, p[0]).value);
      assert forall j :: 0 <= j < |a| && a[j].name == p[0] && Find(a, p[0]) == Some(a[j].tree) ==> a[j] == a[i];
    }
  }

  /** What it means to be removed, one level down. */
  lemma IsRemovedStep(a: seq<Entry>, b: seq<Entry>, p: Path)
    ensures IsRemoved(a, b, p) <==>
            p != [] && Find(a, p[0]).Some? &&
            match Find(b, p[0])
            case None => |p| == 1
            case Some(t) =>
              |p| > 1 && t.Dir? && Find(a, p[0]).value.Dir? && IsRemoved(Find(a, p[0]).value.children, t.children, p[1..])
  {
    if |p| == 1 { assert p[..0] == []; }
    if |p| > 1 { assert p[..|p| - 1][0] == p[0] && p[..|p| - 1][1..] == p[1..][..|p| - 2]; }
  }

  /** The removed list is exactly the removed paths at the top of what went away. */
  lemma {:induction false} RemovedIff(a: seq<Entry>, b: seq<Entry>, p: Path)
    requires Proper(a)
    ensures p in Diff(a, b).removed <==> IsRemoved(a, b, p)
    decreases |p|
  {
    hide Compare, IsRemoved;
    CompareAllAt(a, b, p);
    IsRemovedStep(a, b, p);
    if p != [] && Find(a, p[0]).Some? {
      var e := Entry(p[0], Find(a, p[0]).value);
      CompareIs(e, b, p);
      if Find(b, p[0]).Some? && e.tree.Dir? && Find(b, p[0]).value.Dir? {
        FoundProper(a, p[0]);
        RemovedIff(e.tree.children, Find(b, p[0]).value.children, p[1..]);
        IsRemovedStep(e.tree.children, Find(b, p[0]).value.children, p[1..]);
      }
    }
  }

  lemma {:induction false} ModifiedIff(a: seq<Entry>, b: seq<Entry>, p: Path)
    requires Proper(a)
    ensures Modifies(Diff(a, b), p) <==> IsModified(a, b, p)
    decreases |p|
  {
    hide Compare, Modifies;
    CompareAllAt(a, b, p);
    ModifiesPlus(CompareAll(a, b), NOTHING.(added := AddAll(a, b)), p);
    NoneModified(AddAll(a, b), p);
    if p != [] && Find(a, p[0]).Some? {
      var e := Entry(p[0], Find(a, p[0]).value);
      CompareIs(e, b, p);
      if Find(b, p[0]).Some? && e.tree.Dir? && Find(b, p[0]).value.Dir? {
        FoundProper(a, p[0]);
        ModifiedIff(e.tree.children, Find(b, p[0]).value.children, p[1..]);
      }
    }
  }

  lemma NoneModified(added: seq<Path>, p: Path)
    ensures !Modifies(NOTHING.(added := added), p)
  {
  }

  // The loop over the second directory.

  lemma {:induction false} AddAllIs(a: seq<Entry>, ys: seq<Entry>, p: Path)
    ensures p in AddAll(a, ys) <==> exists i :: 0 <= i < |ys| && Find(a, ys[i].name).None? && p in EverythingOf(ys[i])
  {
    hide EverythingOf, Find;
    if ys != [] {
      var init, last := ys[..|ys| - 1], ys[|ys| - 1];
      AddAllIs(a, init, p);
      assert forall i :: 0 <= i < |init| ==> ys[i] == init[i];
      assert forall i :: 0 <= i < |ys| ==> i < |init| || ys[i] == last;
    }
  }

  lemma AddAllAt(a: seq<Entry>, b: seq<Entry>, p: Path)
    requires Proper(b)
    ensures p in AddAll(a, b) <==> p != [] && Find(a, p[0]).None? && Has(b, p)
  {
    hide EverythingOf;
    AddAllIs(a, b, p);
    InEverything(b, p);
    EverythingIs(b, p);
    forall i | 0 <= i < |b| && p in EverythingOf(b[i])
      ensures p != [] && p[0] == b[i].name
    {
      EverythingOfIs(b[i], p);
    }
  }

  /** What it means to be added, one level down. */
  lemma IsAddedStep(a: seq<Entry>, b: seq<Entry>, p: Path)
    ensures IsAdded(a, b, p) <==>
            p != [] && Find(b, p[0]).Some? &&
            match Find(a, p[0])
            case None => Has(b, p)
            case Some(t) =>
              |p| > 1 && t.Dir? && Find(b, p[0]).value.Dir? && IsAdded(t.children, Find(b, p[0]).value.children, p[1..])
  {
    if p != [] && Find(b, p[0]).Some? {
      match Find(a, p[0])
      case None =>
        if Has(b, p) { assert IsDir(a, p[..0]) && !Has(a, p[..1]); }
      case Some(t) =>
        assert p[..1] == [p[0]];
        if IsAdded(a, b, p) {
          var k :| 0 <= k < |p| && IsDir(a, p[..k]) && !Has(a, p[..k + 1]);
          assert p[..k][1..] == p[1..][..k - 1] && p[..k + 1][1..] == p[1..][..k];
        }
        if |p| > 1 && t.Dir? && Find(b, p[0]).value.Dir? && IsAdded(t.children, Find(b, p[0]).value.children, p[1..]) {
          var k :| 0 <= k < |p[1..]| && IsDir(t.children, p[1..][..k]) && !Has(t.children, p[1..][..k + 1]);
          assert p[..k + 1][1..] == p[1..][..k] && p[..k + 2][1..] == p[1..][..k + 1];
          assert IsDir(a, p[..k + 1]) && !Has(a, p[..k + 2]);
        }
    }
  }

  lemma {:induction false} AddedIff(a: seq<Entry>, b: seq<Entry>, p: Path)
    requires Proper(a) && Proper(b)
    ensures p in Diff(a, b).added <==> IsAdded(a, b, p)
    decreases |p|
  {
    hide Compare, IsAdded;
    CompareAllAt(a, b, p);
    AddAllAt(a, b, p);
    IsAddedStep(a, b, p);
    if p != [] && Find(a, p[0]).Some? {
      var e := Entry(p[0], Find(a, p[0]).value);
      CompareIs(e, b, p);
      if Find(b, p[0]).Some? && e.tree.Dir? && Find(b, p[0]).value.Dir? {
        FoundProper(a, p[0]);
        FoundProper(b, p[0]);
        AddedIff(e.tree.children, Find(b, p[0]).value.children, p[1..]);
        IsAddedStep(e.tree.children, Find(b, p[0]).value.children, p[1..]);
      }
    }
  }

  // --- the theorems ---------------------------------------------------------------------------

  lemma {:induction false} HasPrefix(es: seq<Entry>, p: Path, k: nat)
    requires Has(es, p) && 0 < k <= |p|
    ensures Has(es, p[..k]) && (k < |p| ==> IsDir(es, p[..k]))
    decreases k
  {
    if k == 1 {
      assert p[..1] == [p[0]];
    } else {
      assert p[..k][1..] == p[1..][..k - 1];
      HasPrefix(Find(es, p[0]).value.children, p[1..], k - 1);
    }
  }

  /** No directory with something in it stands where the other tree has something else than a directory. */
  ghost predicate NothingHidden(a: seq<Entry>, b: seq<Entry>) {
    forall p :: Has(a, p) && Has(b, p) ==> !Hides(Lookup(a, p).value, Lookup(b, p).value) && !Hides(Lookup(b, p).value, Lookup(a, p).value)
  }

  predicate Hides(x: Tree, y: Tree) {
    x.Dir? && x.children != [] && !y.Dir?
  }

  /** The directory a path is in is not empty. */
  lemma {:induction false} NotEmptyBelow(es: seq<Entry>, p: Path)
    requires Has(es, p) && |p| > 1
    ensures var d := Lookup(es, p[..|p| - 1]); d.Some? && d.value.Dir? && d.value.children != []
    decreases |p|
  {
    var q := p[..|p| - 1];
    if |p| == 2 {
      assert q == [p[0]];
      assert Lookup(Find(es, p[0]).value.children, p[1..]).Some?;
    } else {
      assert q[1..] == p[1..][..|p| - 2];
      NotEmptyBelow(Find(es, p[0]).value.children, p[1..]);
    }
  }

  lemma {:induction false} LookupSnoc(es: seq<Entry>, q: Path, c: string)
    requires Has(es, q)
    ensures Has(es, q + [c]) <==> Lookup(es, q).value.Dir? && Find(Lookup(es, q).value.children, c).Some?
    decreases |q|
  {
    if |q| == 1 {
      assert (q + [c])[1..] == [c];
      var t := Find(es, q[0]).value;
      if t.Dir? { assert Lookup(t.children, [c]).Some? <==> Find(t.children, c).Some?; }
    } else {
      assert (q + [c])[1..] == q[1..] + [c];
      LookupSnoc(Find(es, q[0]).value.children, q[1..], c);
    }
  }

  lemma {:induction false} MissingHasTop(a: seq<Entry>, b: seq<Entry>, p: Path) returns (k: nat)
    requires NothingHidden(a, b) && Has(a, p) && !Has(b, p)
    ensures 0 < k <= |p| && IsRemoved(a, b, p[..k])
    decreases |p|
  {
    var q := p[..|p| - 1];
    if q != [] {
      HasPrefix(a, p, |q|);
      NotEmptyBelow(a, p);
      if !Has(b, q) {
        k := MissingHasTop(a, b, q);
        assert q[..k] == p[..k];
        return;
      }
    }
    k := |p|;
    assert p[..k] == p;
  }

  lemma {:induction false} FreshIsAdded(a: seq<Entry>, b: seq<Entry>, p: Path, k: nat)
    requires NothingHidden(a, b) && Has(b, p) && 0 < k <= |p| && !Has(a, p[..k])
    ensures IsAdded(a, b, p)
    decreases k
  {
    if k == 1 || Has(a, p[..k - 1]) {
      if k > 1 {
        HasPrefix(b, p, k - 1);
        HasPrefix(b, p, k);
        NotEmptyBelow(b, p[..k]);
        assert p[..k][..k - 1] == p[..k - 1];
      }
      assert p[..k - 1 + 1] == p[..k];
      assert k == 1 ==> p[..0] == [];
      assert IsDir(a, p[..k - 1]);
    } else {
      FreshIsAdded(a, b, p, k - 1);
    }
  }

  /** The trees agree below the root: same names, types and checksums. */
  ghost predicate Agree(a: seq<Entry>, b: seq<Entry>) {
    forall p :: Has(a, p) == Has(b, p) && (Has(a, p) ==> !Differ(Lookup(a, p).value, Lookup(b, p).value))
  }

  /** The three lists are all empty exactly when the trees agree. */
  lemma EmptyIff(a: seq<Entry>, b: seq<Entry>)
    requires Proper(a) && Proper(b)
    ensures Diff(a, b) == NOTHING <==> Agree(a, b)
  {
    hide Diff, Has, Lookup, Proper;
    if Agree(a, b) {
      AgreeIsEmpty(a, b);
    }
    if Diff(a, b) == NOTHING {
      EmptyAgrees(a, b);
    }
  }

  lemma AgreeIsEmpty(a: seq<Entry>, b: seq<Entry>)
    requires Proper(a) && Proper(b) && Agree(a, b)
    ensures Diff(a, b) == NOTHING
  {
    hide Diff, Lookup, Proper;
    var d := Diff(a, b);
    if d.removed != [] {
      RemovedIff(a, b, d.removed[0]);
      assert false;
    }
    if d.modified != [] {
      var p := d.modified[0].path;
      ModifiedIff(a, b, p);
      assert false;
    }
    if d.added != [] {
      var p := d.added[0];
      AddedIff(a, b, p);
      var k :| 0 <= k < |p| && IsDir(a, p[..k]) && !Has(a, p[..k + 1]);
      HasPrefix(b, p, k + 1);
      assert false;
    }
  }

  lemma EmptyAgrees(a: seq<Entry>, b: seq<Entry>)
    requires Proper(a) && Proper(b) && Diff(a, b) == NOTHING
    ensures Agree(a, b)
  {
    hide Diff, Lookup, Proper;
    forall p
      ensures Has(a, p) && Has(b, p) ==> !Differ(Lookup(a, p).value, Lookup(b, p).value)
    {
      ModifiedIff(a, b, p);
    }
    forall p
      ensures Has(a, p) == Has(b, p)
    {
      if Has(a, p) && !Has(b, p) {
        var k := MissingHasTop(a, b, p);
        RemovedIff(a, b, p[..k]);
      }
      if Has(b, p) && !Has(a, p) {
        assert p[..|p|] == p;
        HasSome(b, p);
        FreshIsAdded(a, b, p, |p|);
        AddedIff(a, b, p);
      }
    }
  }

  lemma HasSome(es: seq<Entry>, p: Path)
    ensures Has(es, p) ==> p != []
  {
  }

  /** At or below a path of the list. */
  ghost predicate Covered(ps: seq<Path>, p: Path) {
    exists k :: 0 < k <= |p| && p[..k] in ps
  }

  /** The lists account for a path: take away what is removed, put in what is added. */
  ghost predicate Accounted(a: seq<Entry>, b: seq<Entry>, p: Path) {
    Has(b, p) <==> (Has(a, p) && !Covered(Diff(a, b).removed, p)) || p in Diff(a, b).added
  }

  lemma AccountedWhen(a: seq<Entry>, b: seq<Entry>, p: Path)
    requires Proper(a) && Proper(b) && NothingHidden(a, b)
    ensures Accounted(a, b, p)
  {
    hide Diff, Lookup, Proper, NothingHidden;
    AddedIff(a, b, p);
    HasSome(b, p);
    assert p[..|p|] == p;
    if Has(a, p) && !Has(b, p) {
      var k := MissingHasTop(a, b, p);
      RemovedIff(a, b, p[..k]);
    }
    if Has(b, p) && !Has(a, p) {
      FreshIsAdded(a, b, p, |p|);
    }
    if Has(b, p) && Covered(Diff(a, b).removed, p) {
      var k :| 0 < k <= |p| && p[..k] in Diff(a, b).removed;
      RemovedIff(a, b, p[..k]);
      HasPrefix(b, p, k);
      assert false;
    }
  }

  /** Nothing below a path that is no directory any more, or not yet, is there at all. */
  lemma NothingBelow(es: seq<Entry>, q: Path, rest: Path)
    requires Has(es, q) && !Lookup(es, q).value.Dir? && rest != []
    ensures !Has(es, q + rest)
  {
    hide Lookup;
    var p := q + rest;
    HasSome(es, q);
    assert p[..|q|] == q;
    if Has(es, p) { HasPrefix(es, p, |q|); }
  }

  lemma NoDirBelow(es: seq<Entry>, q: Path, rest: Path)
    requires Has(es, q) && !Lookup(es, q).value.Dir?
    ensures !IsDir(es, q + rest)
  {
    HasSome(es, q);
    assert q + [] == q;
    if rest != [] { NothingBelow(es, q, rest); }
  }

  /** What a type change hides on the new side is new, and not listed as added. */
  lemma HiddenNotAdded(a: seq<Entry>, b: seq<Entry>, q: Path, rest: Path)
    requires Proper(a) && Proper(b) && Has(a, q) && !Lookup(a, q).value.Dir?
    requires rest != [] && Has(b, q + rest)
    ensures !Has(a, q + rest) && q + rest !in Diff(a, b).added && !Accounted(a, b, q + rest)
  {
    hide Lookup, Diff, Proper;
    var p := q + rest;
    NothingBelow(a, q, rest);
    AddedIff(a, b, p);
    if IsAdded(a, b, p) {
      var k :| 0 <= k < |p| && IsDir(a, p[..k]) && !Has(a, p[..k + 1]);
      if k < |q| {
        assert p[..k + 1] == q[..k + 1];
        HasPrefix(a, q, k + 1);
      } else {
        assert p[..k] == q + rest[..k - |q|];
        NoDirBelow(a, q, rest[..k - |q|]);
      }
      assert false;
    }
  }

  /** What a type change hides on the old side is gone, and not listed as removed. */
  lemma HiddenNotRemoved(a: seq<Entry>, b: seq<Entry>, q: Path, rest: Path)
    requires Proper(a) && Proper(b) && Has(b, q) && !Lookup(b, q).value.Dir?
    requires rest != [] && Has(a, q + rest)
    ensures !Has(b, q + rest) && !Covered(Diff(a, b).removed, q + rest) && !Accounted(a, b, q + rest)
  {
    hide Lookup, Diff, Proper;
    var p := q + rest;
    NothingBelow(b, q, rest);
    if Covered(Diff(a, b).removed, p) {
      var k :| 0 < k <= |p| && p[..k] in Diff(a, b).removed;
      RemovedIff(a, b, p[..k]);
      if k <= |q| {
        assert p[..k] == q[..k];
        HasPrefix(b, q, k);
      } else {
        assert p[..k][..k - 1] == q + rest[..k - 1 - |q|];
        NoDirBelow(b, q, rest[..k - 1 - |q|]);
      }
      assert false;
    }
    AddedIff(a, b, p);
  }

  /** Every non-empty directory hidden by a type change leaves a path unaccounted for. */
  lemma HidingShows(a: seq<Entry>, b: seq<Entry>, q: Path)
    requires Proper(a) && Proper(b) && Has(a, q) && Has(b, q)
    requires Hides(Lookup(a, q).value, Lookup(b, q).value) || Hides(Lookup(b, q).value, Lookup(a, q).value)
    ensures exists p :: !Accounted(a, b, p)
  {
    hide Lookup, Accounted, Proper;
    if Hides(Lookup(a, q).value, Lookup(b, q).value) {
      var c := Lookup(a, q).value.children[0].name;
      LookupSnoc(a, q, c);
      HiddenNotRemoved(a, b, q, [c]);
    } else {
      var c := Lookup(b, q).value.children[0].name;
      LookupSnoc(b, q, c);
      HiddenNotAdded(a, b, q, [c]);
    }
  }

  /**
   The lists account for every path exactly when no type change hides anything: a directory
   that turns into something else, or the other way round, is listed as modified alone.
   */
  lemma AccountedIff(a: seq<Entry>, b: seq<Entry>)
    requires Proper(a) && Proper(b)
    ensures (forall p :: Accounted(a, b, p)) <==> NothingHidden(a, b)
  {
    hide Accounted, Proper, Lookup;
    if NothingHidden(a, b) {
      forall p
        ensures Accounted(a, b, p)
      {
        AccountedWhen(a, b, p);
      }
    } else {
      var q :| Has(a, q) && Has(b, q) && (Hides(Lookup(a, q).value, Lookup(b, q).value) || Hides(Lookup(b, q).value, Lookup(a, q).value));
      HidingShows(a, b, q);
    }
  }

  // --- the code -----------------------------------------------------------------------------

  /** The three arrays the caller supplies. */
  class Result {
    var modified: seq<Item>
    var removed: seq<Path>
    var added: seq<Path>

    ghost function Contents(): Lists
      reads this
    {
      Lists(modified, removed, added)
    }

    constructor ()
      ensures Contents() == NOTHING
    {
      modified, removed, added := [], [], [];
    }
  }

  lemma UnderPlus(path: Path, x: Lists, y: Lists)
    ensures ListsUnder(path, Plus(x, y)) == Plus(ListsUnder(path, x), ListsUnder(path, y))
  {
    assert ItemsUnder(path, x.modified + y.modified) == ItemsUnder(path, x.modified) + ItemsUnder(path, y.modified);
    assert Under(path, x.removed + y.removed) == Under(path, x.removed) + Under(path, y.removed);
    assert Under(path, x.added + y.added) == Under(path, x.added) + Under(path, y.added);
  }

  lemma UnderTwice(path: Path, more: Path, x: Lists)
    ensures ListsUnder(path, ListsUnder(more, x)) == ListsUnder(path + more, x)
  {
    assert forall p: Path :: path + (more + p) == path + more + p;
    assert ItemsUnder(path, ItemsUnder(more, x.modified)) == ItemsUnder(path + more, x.modified);
    assert Under(path, Under(more, x.removed)) == Under(path + more, x.removed);
    assert Under(path, Under(more, x.added)) == Under(path + more, x.added);
  }

  /** The contents checksum of a repository directory: equal checksums mean equal children. */
  ghost predicate Injective(contents: seq<Entry> -> Checksum) {
    forall x, y :: contents(x) == contents(y) ==> x == y
  }

  /** The shortcut leaves nothing out: a directory does not differ from itself. */
  lemma SelfDiff(es: seq<Entry>)
    requires Proper(es)
    ensures Diff(es, es) == NOTHING
  {
    EmptyIff(es, es);
  }

  method AddDirRecurse(d: seq<Entry>, path: Path, acc: Result)
    modifies acc`added
    ensures acc.added == old(acc.added) + Under(path, Everything(d))
    decreases d, 1
  {
    hide EverythingOf;
    for i := 0 to |d|
      invariant acc.added == old(acc.added) + Under(path, Everything(d[..i]))
    {
      AddChild(d[i], path, acc);
      assert d[..i + 1][..i] == d[..i];
      UnderConcat(path, Everything(d[..i]), EverythingOf(d[i]));
    }
    assert d[..|d|] == d;
  }

  method AddChild(e: Entry, path: Path, acc: Result)
    modifies acc`added
    ensures acc.added == old(acc.added) + Under(path, EverythingOf(e))
    decreases e, 0
  {
    acc.added := acc.added + [path + [e.name]];
    if e.tree.Dir? {
      AddDirRecurse(e.tree.children, path + [e.name], acc);
      UnderConcat(path, [[e.name]], Under([e.name], Everything(e.tree.children)));
      UnderNested(path, [e.name], Everything(e.tree.children));
    }
    assert Under(path, [[e.name]]) == [path + [e.name]];
  }

  lemma UnderConcat(path: Path, x: seq<Path>, y: seq<Path>)
    ensures Under(path, x + y) == Under(path, x) + Under(path, y)
  {
  }

  lemma UnderNested(path: Path, more: Path, x: seq<Path>)
    ensures Under(path, Under(more, x)) == Under(path + more, x)
  {
    assert forall p: Path :: path + (more + p) == path + more + p;
  }

  /**
   The comparison with the shortcut; `repo` says that both trees are read from a repository,
   where directories carry a contents checksum.
   */
  method DiffDirs(a: seq<Entry>, b: seq<Entry>, path: Path, repo: bool, contents: seq<Entry> -> Checksum, acc: Result)
    requires Proper(a) && Proper(b) && Injective(contents)
    modifies acc
    ensures acc.Contents() == Plus(old(acc.Contents()), ListsUnder(path, Diff(a, b)))
    decreases a, 2
  {
    hide Proper, Injective, ListsUnder, Compare, Plus;
    if repo && contents(a) == contents(b) {
      SameChildren(contents, a, b);
      UnderNothing(path, acc.Contents());
      return;
    }
    ghost var start := acc.Contents();
    UnderNothing(path, start);
    for i := 0 to |a|
      invariant acc.Contents() == Plus(start, ListsUnder(path, CompareAll(a[..i], b)))
    {
      ghost var so := CompareAll(a[..i], b);
      CompareChild(a, i, b, path, repo, contents, acc);
      assert a[..i + 1][..i] == a[..i];
      UnderPlus(path, so, Compare(a[i], b));
      PlusAssociates(start, ListsUnder(path, so), ListsUnder(path, Compare(a[i], b)));
    }
    assert a[..|a|] == a;
    ghost var compared := CompareAll(a, b);
    AddMissing(a, b, path, acc);
    UnderPlus(path, compared, NOTHING.(added := AddAll(a, b)));
    PlusAssociates(start, ListsUnder(path, compared), ListsUnder(path, NOTHING.(added := AddAll(a, b))));
  }

  /** One round of the first loop. */
  method CompareChild(a: seq<Entry>, i: nat, b: seq<Entry>, path: Path, repo: bool, contents: seq<Entry> -> Checksum, acc: Result)
    requires i < |a| && Proper(a) && Proper(b) && Injective(contents)
    modifies acc
    ensures acc.Contents() == Plus(old(acc.Contents()), ListsUnder(path, Compare(a[i], b)))
    decreases a[i], 0
  {
    hide Proper, Injective, Diff;
    var e := a[i];
    var child := path + [e.name];
    var found := Find(b, e.name);
    if found.None? {
      acc.removed := acc.removed + [child];
    } else if !SameType(e.tree, found.value) {
      acc.modified := acc.modified + [Item(child, None)];
    } else {
      if e.tree.checksum != found.value.checksum {
        acc.modified := acc.modified + [Item(child, Some((e.tree.checksum, found.value.checksum)))];
      }
      if e.tree.Dir? {
        ChildProper(a, i);
        FoundProper(b, e.name);
        DiffDirs(e.tree.children, found.value.children, child, repo, contents, acc);
        UnderTwice(path, [e.name], Diff(e.tree.children, found.value.children));
      }
    }
  }

  /** The second loop. */
  method AddMissing(a: seq<Entry>, b: seq<Entry>, path: Path, acc: Result)
    modifies acc`added
    ensures acc.Contents() == Plus(old(acc.Contents()), ListsUnder(path, NOTHING.(added := AddAll(a, b))))
  {
    hide EverythingOf, Find;
    for i := 0 to |b|
      invariant acc.added == old(acc.added) + Under(path, AddAll(a, b[..i]))
    {
      assert b[..i + 1][..i] == b[..i];
      if Find(a, b[i].name).None? {
        AddChild(b[i], path, acc);
        UnderConcat(path, AddAll(a, b[..i]), EverythingOf(b[i]));
      }
    }
    assert b[..|b|] == b;
    AddedOnly(path, old(acc.Contents()), AddAll(a, b));
  }

  lemma AddedOnly(path: Path, l: Lists, ps: seq<Path>)
    ensures Plus(l, ListsUnder(path, NOTHING.(added := ps))) == l.(added := l.added + Under(path, ps))
  {
  }

  lemma PlusAssociates(x: Lists, y: Lists, z: Lists)
    ensures Plus(Plus(x, y), z) == Plus(x, Plus(y, z))
  {
  }

  /** Without a first directory everything in the second is added. */
  method DiffOptional(a: Option<seq<Entry>>, b: seq<Entry>, repo: bool, contents: seq<Entry> -> Checksum) returns (acc: Result)
    requires (a.Some? ==> Proper(a.value)) && Proper(b) && Injective(contents)
    ensures fresh(acc) && acc.Contents() == Diff(if a.Some? then a.value else [], b)
  {
    hide Proper, Injective;
    acc := new Result();
    if a.None? {
      AddDirRecurse(b, [], acc);
      AddAllOfNothing(b);
      UnderRoot(NOTHING.(added := Everything(b)));
    } else {
      DiffDirs(a.value, b, [], repo, contents, acc);
      UnderRoot(Diff(a.value, b));
    }
  }

  lemma UnderRoot(l: Lists)
    ensures Plus(NOTHING, ListsUnder([], l)) == l
  {
    assert forall p: Path :: [] + p == p;
    assert ItemsUnder([], l.modified) == l.modified && Under([], l.removed) == l.removed && Under([], l.added) == l.added;
  }

  lemma {:induction false} AddAllOfNothing(b: seq<Entry>)
    ensures AddAll([], b) == Everything(b)
  {
    if b != [] {
      AddAllOfNothing(b[..|b| - 1]);
    }
  }

  lemma SameChildren(contents: seq<Entry> -> Checksum, a: seq<Entry>, b: seq<Entry>)
    requires Injective(contents) && contents(a) == contents(b) && Proper(a)
    ensures Diff(a, b) == NOTHING
  {
    SelfDiff(a);
  }

  lemma UnderNothing(path: Path, l: Lists)
    ensures ListsUnder(path, NOTHING) == NOTHING && Plus(l, NOTHING) == l
  {
  }
}
