/** Reading and replacing the subtree at a path of a pure tree. */
module TreePaths {
  import opened Options
  import opened DirTrees

  function GetAt(t: Tree, path: Path): Option<Tree> {
    if path == [] then Some(t)
    else if path[0] in t.subdirs then GetAt(t.subdirs[path[0]], path[1..])
    else None
  }

  /** `t` with the directory at `path`, if there is one, replaced by `d`. */
  function PutAt(t: Tree, path: Path, d: Tree): Tree {
    if path == [] then d
    else if path[0] in t.subdirs then
      t.(subdirs := t.subdirs[path[0] := PutAt(t.subdirs[path[0]], path[1..], d)])
    else t
  }

  /**
   `t` with every directory of `path` in place, new ones empty and carrying `meta`; or None
   if a file is in the way.
   */
  function MakeDirs(t: Tree, path: Path, meta: Checksum): Option<Tree>
    decreases |path|
  {
    if path == [] then Some(t)
    else if path[0] !in t.subdirs && path[0] in t.files then None
    else
      var child := if path[0] in t.subdirs then t.subdirs[path[0]] else EMPTY_TREE.(meta := Some(meta));
      match MakeDirs(child, path[1..], meta)
      case None => None
      case Some(c) => Some(t.(subdirs := t.subdirs[path[0] := c]))
  }

  lemma {:induction false} PutBack(t: Tree, path: Path)
    requires GetAt(t, path).Some?
    ensures PutAt(t, path, GetAt(t, path).value) == t
    decreases |path|
  {
    if path != [] {
      PutBack(t.subdirs[path[0]], path[1..]);
    }
  }

  lemma {:induction false} PutTwice(t: Tree, path: Path, a: Tree, b: Tree)
    ensures PutAt(PutAt(t, path, a), path, b) == PutAt(t, path, b)
    decreases |path|
  {
    if path != [] && path[0] in t.subdirs {
      PutTwice(t.subdirs[path[0]], path[1..], a, b);
    }
  }

  lemma {:induction false} PutDeep(t: Tree, path: Path, rest: Path, d: Tree)
    requires GetAt(t, path).Some?
    ensures PutAt(t, path + rest, d) == PutAt(t, path, PutAt(GetAt(t, path).value, rest, d))
    decreases |path|
  {
    if path == [] {
      assert path + rest == rest;
    } else {
      assert (path + rest)[1..] == path[1..] + rest;
      PutDeep(t.subdirs[path[0]], path[1..], rest, d);
    }
  }

  lemma {:induction false} GetAtDeep(t: Tree, path: Path, rest: Path)
    requires GetAt(t, path).Some?
    ensures GetAt(t, path + rest) == GetAt(GetAt(t, path).value, rest)
    decreases |path|
  {
    if path == [] {
      assert path + rest == rest;
    } else {
      assert (path + rest)[1..] == path[1..] + rest;
      GetAtDeep(t.subdirs[path[0]], path[1..], rest);
    }
  }

  /** Creating the next missing directory does not change where MakeDirs ends up. */
  lemma {:induction false} MakeDirsStep(t: Tree, path: Path, i: nat, meta: Checksum)
    requires i < |path| && GetAt(t, path[..i]).Some?
    requires var d := GetAt(t, path[..i]).value; path[i] !in d.files && path[i] !in d.subdirs
    ensures var d := GetAt(t, path[..i]).value;
            var t' := PutAt(t, path[..i], d.(subdirs := d.subdirs[path[i] := EMPTY_TREE.(meta := Some(meta))]));
            MakeDirs(t', path, meta) == MakeDirs(t, path, meta)
    decreases i
  {
    if i != 0 {
      assert path[..i][0] == path[0] && path[..i][1..] == path[1..][..i - 1];
      MakeDirsStep(t.subdirs[path[0]], path[1..], i - 1, meta);
      forall c, c' {:trigger t.subdirs[path[0] := c][path[0] := c']}
        ensures t.subdirs[path[0] := c][path[0] := c'] == t.subdirs[path[0] := c']
      {
      }
    } else {
      var e := EMPTY_TREE.(meta := Some(meta));
      forall c {:trigger t.subdirs[path[0] := c]}
        ensures t.subdirs[path[0] := e][path[0] := c] == t.subdirs[path[0] := c]
      {
      }
    }
  }

  lemma {:induction false} MakeDirsDone(t: Tree, path: Path, meta: Checksum)
    requires GetAt(t, path).Some?
    ensures MakeDirs(t, path, meta) == Some(t)
    decreases |path|
  {
    if path != [] {
      MakeDirsDone(t.subdirs[path[0]], path[1..], meta);
      assert t.subdirs[path[0] := t.subdirs[path[0]]] == t.subdirs;
    }
  }

  lemma {:induction false} MakeDirsBlocked(t: Tree, path: Path, i: nat, meta: Checksum)
    requires i < |path| && GetAt(t, path[..i]).Some?
    requires var d := GetAt(t, path[..i]).value; path[i] in d.files && path[i] !in d.subdirs
    ensures MakeDirs(t, path, meta) == None
    decreases i
  {
    if i != 0 {
      assert path[..i][0] == path[0] && path[..i][1..] == path[1..][..i - 1];
      MakeDirsBlocked(t.subdirs[path[0]], path[1..], i - 1, meta);
    }
  }
}

/** How the trees of all nodes follow from a change to the fields of one of them. */
module WorldEdits {
  import opened Options
  import opened DirTrees
  import opened TreePaths
  import opened Worlds

  /** The fields the abstract tree depends on; a loaded node's cache is not one of them. */
  ghost predicate SameTables<Ref>(a: Node<Ref>, b: Node<Ref>) {
    && a.state == b.state && a.meta == b.meta && a.files == b.files && a.subdirs == b.subdirs
    && (a.state.Lazy? ==> a.contents == b.contents)
  }

  ghost predicate SameExceptAt<Ref>(w: World<Ref>, w': World<Ref>, n: Ref) {
    forall m :: m in w ==> m in w' && (m == n || SameTables(w[m], w'[m]))
  }

  /** The shape of the two trees when the tables of `m` are the same in both worlds. */
  lemma AbsOfSameTables<Ref>(st: Store, w: World<Ref>, w': World<Ref>, m: Ref)
    requires Inv(st, w) && Inv(st, w') && m in w && m in w' && SameTables(w[m], w'[m])
    ensures Abs(st, w', m).meta == Abs(st, w, m).meta && Abs(st, w', m).files == Abs(st, w, m).files
    ensures Abs(st, w', m).subdirs.Keys == Abs(st, w, m).subdirs.Keys
    ensures w[m].state.Lazy? ==> Abs(st, w', m) == Abs(st, w, m)
    ensures w[m].state.Whole? ==> Abs(st, w, m).subdirs.Keys == w[m].subdirs.Keys
  {
    if w[m].state.Whole? {
      assert Abs(st, w', m).subdirs.Keys == w'[m].subdirs.Keys;
      assert Abs(st, w, m).subdirs.Keys == w[m].subdirs.Keys;
    }
  }

  lemma TreesFromChildren(t: Tree, t': Tree, but: Option<Name>)
    requires t.meta == t'.meta && t.files == t'.files && t.subdirs.Keys == t'.subdirs.Keys
    requires forall k :: k in t.subdirs && but != Some(k) ==> t.subdirs[k] == t'.subdirs[k]
    ensures but.None? ==> t == t'
    ensures but.Some? && but.value in t.subdirs ==>
              t' == t.(subdirs := t.subdirs[but.value := t'.subdirs[but.value]])
  {
    if but.None? {
      assert t.subdirs == t'.subdirs;
    } else if but.value in t.subdirs {
      assert t'.subdirs == t.subdirs[but.value := t'.subdirs[but.value]];
    }
  }

  /** Equal tables and equal children, but for the one named `but`, make equal trees but for that child. */
  lemma AbsFromChildren<Ref>(st: Store, w: World<Ref>, w': World<Ref>, m: Ref, but: Option<Name>)
    requires Inv(st, w) && Inv(st, w') && m in w && m in w' && SameTables(w[m], w'[m])
    requires forall k :: k in w[m].subdirs && but != Some(k) ==>
                           && w[m].subdirs[k] in w && w[m].subdirs[k] in w'
                           && Abs(st, w', w[m].subdirs[k]) == Abs(st, w, w[m].subdirs[k])
    ensures but.None? ==> Abs(st, w', m) == Abs(st, w, m)
    ensures but.Some? && but.value in w[m].subdirs ==>
              var t, t' := Abs(st, w, m), Abs(st, w', m);
              but.value in t'.subdirs && t' == t.(subdirs := t.subdirs[but.value := t'.subdirs[but.value]])
  {
    AbsOfSameTables(st, w, w', m);
    var t, t' := Abs(st, w, m), Abs(st, w', m);
    if w[m].state.Whole? {
      forall k | k in t.subdirs && but != Some(k)
        ensures t.subdirs[k] == t'.subdirs[k]
      {
        AbsChild(st, w, m, k);
        AbsChild(st, w', m, k);
      }
      TreesFromChildren(t, t', but);
    } else {
      assert CacheOk(st, w, m);
    }
  }

  lemma ChildIsBelow<Ref>(w: World<Ref>, n: Ref, k: Name)
    requires Shape(w) && n in w && k in w[n].subdirs
    ensures w[n].subdirs[k] in w && w[w[n].subdirs[k]].parent == Some(n)
    ensures Below(w, w[n].subdirs[k]) < Below(w, n)
  {
    assert ShapeAt(w, n);
    assert w[n].subdirs[k] in Below(w, n);
  }

  /** If `n` stands for the same tree as before, so does every node. */
  lemma {:induction false} StutterAt<Ref>(st: Store, w: World<Ref>, w': World<Ref>, n: Ref, m: Ref)
    requires Inv(st, w) && Inv(st, w') && n in w && m in w && SameExceptAt(w, w', n)
    requires Abs(st, w', n) == Abs(st, w, n)
    ensures Abs(st, w', m) == Abs(st, w, m)
    decreases Below(w, m)
  {
    if m != n {
      forall k | k in w[m].subdirs
        ensures w[m].subdirs[k] in w && Abs(st, w', w[m].subdirs[k]) == Abs(st, w, w[m].subdirs[k])
      {
        ChildIsBelow(w, m, k);
        StutterAt(st, w, w', n, w[m].subdirs[k]);
      }
      AbsFromChildren(st, w, w', m, None);
    }
  }

  lemma {:induction false} AboveParent<Ref>(w: World<Ref>, c: Ref, n: Ref)
    requires Shape(w) && n in w && c in w && Above(w, c, n) && w[c].parent.Some?
    ensures Above(w, w[c].parent.value, n)
    decreases w[n].depth
  {
    assert ShapeAt(w, n) && ShapeAt(w, w[n].parent.value);
    if c != n {
      AboveParent(w, c, w[n].parent.value);
    } else {
      assert Above(w, w[n].parent.value, w[n].parent.value);
    }
  }

  lemma {:induction false} AboveDepth<Ref>(w: World<Ref>, a: Ref, n: Ref)
    requires Shape(w) && n in w && Above(w, a, n)
    ensures a in w && w[a].depth <= w[n].depth
    ensures w[a].depth == w[n].depth ==> a == n
    decreases w[n].depth
  {
    if a != n {
      assert ShapeAt(w, n) && ShapeAt(w, w[n].parent.value);
      AboveDepth(w, a, w[n].parent.value);
    }
  }

  lemma {:induction false} AboveUnique<Ref>(w: World<Ref>, a: Ref, b: Ref, n: Ref)
    requires Shape(w) && n in w && Above(w, a, n) && Above(w, b, n)
    requires a in w && b in w && w[a].depth == w[b].depth
    ensures a == b
    decreases w[n].depth
  {
    AboveDepth(w, a, n);
    AboveDepth(w, b, n);
    if a != n && b != n {
      assert ShapeAt(w, n) && ShapeAt(w, w[n].parent.value);
      AboveUnique(w, a, b, w[n].parent.value);
    }
  }

  lemma {:induction false} AtIsBelow<Ref>(w: World<Ref>, r: Ref, path: Path, n: Ref)
    requires Shape(w) && At(w, r, path) == Some(n)
    ensures r in w && n in w && Above(w, r, n)
    decreases |path|
  {
    if path != [] {
      ChildIsBelow(w, r, path[0]);
      AtIsBelow(w, w[r].subdirs[path[0]], path[1..], n);
      AboveParent(w, w[r].subdirs[path[0]], n);
    }
  }

  /** A change to `n` does not reach the nodes `n` is not under. */
  lemma {:induction false} FrameAt<Ref>(st: Store, w: World<Ref>, w': World<Ref>, n: Ref, m: Ref)
    requires Inv(st, w) && Inv(st, w') && n in w && m in w && SameExceptAt(w, w', n)
    requires !Above(w, m, n)
    ensures Abs(st, w', m) == Abs(st, w, m)
    decreases Below(w, m)
  {
    assert m != n;
    forall k | k in w[m].subdirs
      ensures w[m].subdirs[k] in w && Abs(st, w', w[m].subdirs[k]) == Abs(st, w, w[m].subdirs[k])
    {
      ChildIsBelow(w, m, k);
      if Above(w, w[m].subdirs[k], n) { AboveParent(w, w[m].subdirs[k], n); }
      FrameAt(st, w, w', n, w[m].subdirs[k]);
    }
    AbsFromChildren(st, w, w', m, None);
  }

  /** Of the children of `r`, only the one `n` is under can change. */
  lemma SiblingsKeep<Ref>(st: Store, w: World<Ref>, w': World<Ref>, n: Ref, r: Ref, k: Name, j: Name)
    requires Inv(st, w) && Inv(st, w') && n in w && r in w && SameExceptAt(w, w', n)
    requires j in w[r].subdirs && k in w[r].subdirs && j != k && Above(w, w[r].subdirs[k], n)
    ensures w[r].subdirs[j] in w && Abs(st, w', w[r].subdirs[j]) == Abs(st, w, w[r].subdirs[j])
  {
    ChildIsBelow(w, r, j);
    assert ShapeAt(w, r);
    if Above(w, w[r].subdirs[j], n) { AboveUnique(w, w[r].subdirs[j], w[r].subdirs[k], n); }
    FrameAt(st, w, w', n, w[r].subdirs[j]);
  }

  lemma AboveIsApart<Ref>(w: World<Ref>, r: Ref, k: Name, n: Ref)
    requires Shape(w) && r in w && n in w && k in w[r].subdirs && Above(w, w[r].subdirs[k], n)
    ensures r != n
  {
    assert ShapeAt(w, r);
    AboveDepth(w, w[r].subdirs[k], n);
  }

  /** In the trees `n` is under, a change to `n` replaces exactly the subtree at its path. */
  lemma {:induction false} GraftAt<Ref>(st: Store, w: World<Ref>, w': World<Ref>, n: Ref, r: Ref, path: Path)
    requires Inv(st, w) && Inv(st, w') && n in w && SameExceptAt(w, w', n)
    requires At(w, r, path) == Some(n)
    ensures r in w && Abs(st, w', r) == PutAt(Abs(st, w, r), path, Abs(st, w', n))
    decreases |path|
  {
    if path != [] {
      var k := path[0];
      var c := w[r].subdirs[k];
      AtIsBelow(w, c, path[1..], n);
      GraftAt(st, w, w', n, c, path[1..]);
      AboveIsApart(w, r, k, n);
      forall j | j in w[r].subdirs && j != k
        ensures w[r].subdirs[j] in w && Abs(st, w', w[r].subdirs[j]) == Abs(st, w, w[r].subdirs[j])
      {
        SiblingsKeep(st, w, w', n, r, k, j);
      }
      AbsFromChildren(st, w, w', r, Some(k));
      AbsChild(st, w, r, k);
      AbsChild(st, w', r, k);
    }
  }

  lemma AbsChild<Ref>(st: Store, w: World<Ref>, r: Ref, k: Name)
    requires Inv(st, w) && r in w && k in w[r].subdirs
    ensures w[r].subdirs[k] in w
    ensures k in Abs(st, w, r).subdirs && Abs(st, w, r).subdirs[k] == Abs(st, w, w[r].subdirs[k])
  {
    assert ShapeAt(w, r) && CacheOk(st, w, r);
  }

  lemma {:induction false} GetAtAbs<Ref>(st: Store, w: World<Ref>, r: Ref, path: Path, n: Ref)
    requires Inv(st, w) && At(w, r, path) == Some(n)
    ensures r in w && n in w && GetAt(Abs(st, w, r), path) == Some(Abs(st, w, n))
    decreases |path|
  {
    if path != [] {
      AbsChild(st, w, r, path[0]);
      GetAtAbs(st, w, w[r].subdirs[path[0]], path[1..], n);
    }
  }

  // --- Relations between the worlds before and after an operation ----------------------

  /** Nothing moved; children may have appeared where a directory was loaded. */
  ghost predicate Grown<Ref>(w: World<Ref>, w': World<Ref>) {
    forall m :: m in w ==>
                  && m in w' && w'[m].parent == w[m].parent
                  && forall k :: k in w[m].subdirs ==> k in w'[m].subdirs && w'[m].subdirs[k] == w[m].subdirs[k]
  }

  /** No node stands for another tree than before. */
  ghost predicate Unedited<Ref>(st: Store, w: World<Ref>, w': World<Ref>) {
    && Inv(st, w) && Inv(st, w') && Grown(w, w')
    && forall m :: m in w ==> Abs(st, w', m) == Abs(st, w, m)
  }

  lemma UneditedFacts<Ref>(st: Store, w: World<Ref>, w': World<Ref>)
    requires Unedited(st, w, w')
    ensures Inv(st, w) && Inv(st, w') && Grown(w, w')
    ensures forall m :: m in w ==> m in w' && Abs(st, w', m) == Abs(st, w, m)
  {
  }

  /** What a change to the tree of `n` means for the tree of `r`. */
  ghost predicate EditedIn<Ref>(st: Store, w: World<Ref>, w': World<Ref>, n: Ref, r: Ref)
    requires Inv(st, w) && Inv(st, w') && n in w && n in w' && r in w
  {
    && r in w'
    && (!Above(w, r, n) ==> Abs(st, w', r) == Abs(st, w, r))
    && forall path :: At(w, r, path) == Some(n) ==>
                        Abs(st, w', r) == PutAt(Abs(st, w, r), path, Abs(st, w', n))
  }

  /** Only the tree of `n` was replaced: everything it is not part of stands as it was. */
  ghost predicate Edited<Ref>(st: Store, w: World<Ref>, w': World<Ref>, n: Ref) {
    && Inv(st, w) && Inv(st, w') && n in w && n in w'
    && forall r :: r in w ==> EditedIn(st, w, w', n, r)
  }

  lemma EditedByTables<Ref>(st: Store, w: World<Ref>, w': World<Ref>, n: Ref)
    requires Inv(st, w) && Inv(st, w') && n in w && SameExceptAt(w, w', n)
    ensures Edited(st, w, w', n)
  {
    forall r | r in w
      ensures EditedIn(st, w, w', n, r)
    {
      if !Above(w, r, n) { FrameAt(st, w, w', n, r); }
      forall path | At(w, r, path) == Some(n)
        ensures Abs(st, w', r) == PutAt(Abs(st, w, r), path, Abs(st, w', n))
      {
        GraftAt(st, w, w', n, r, path);
      }
    }
  }

  lemma {:induction false} AtGrows<Ref>(w: World<Ref>, w': World<Ref>, r: Ref, path: Path)
    requires Grown(w, w') && At(w, r, path).Some?
    ensures At(w', r, path) == At(w, r, path)
    decreases |path|
  {
    if path != [] {
      AtGrows(w, w', w[r].subdirs[path[0]], path[1..]);
    }
  }

  lemma {:induction false} AboveCarries<Ref>(w: World<Ref>, w': World<Ref>, a: Ref, n: Ref)
    requires Shape(w) && Shape(w') && n in w
    requires forall m :: m in w ==> m in w' && w'[m].parent == w[m].parent
    ensures Above(w, a, n) == Above(w', a, n)
    decreases w[n].depth
  {
    assert ShapeAt(w, n);
    if a != n && w[n].parent.Some? {
      assert ShapeAt(w, w[n].parent.value);
      AboveCarries(w, w', a, w[n].parent.value);
    }
  }

  /** Loading first does not change what an edit means. */
  lemma EditedAfter<Ref>(st: Store, w: World<Ref>, w1: World<Ref>, w2: World<Ref>, n: Ref)
    requires Unedited(st, w, w1) && Edited(st, w1, w2, n) && n in w
    ensures Edited(st, w, w2, n)
  {
    forall r | r in w
      ensures EditedIn(st, w, w2, n, r)
    {
      assert EditedIn(st, w1, w2, n, r);
      AboveCarries(w, w1, r, n);
      forall path | At(w, r, path) == Some(n)
        ensures Abs(st, w2, r) == PutAt(Abs(st, w, r), path, Abs(st, w2, n))
      {
        AtGrows(w, w1, r, path);
      }
    }
  }

  // --- Edits somewhere below a node ----------------------------------------------------

  ghost predicate WithinIn<Ref>(st: Store, w: World<Ref>, w': World<Ref>, n: Ref, r: Ref)
    requires Inv(st, w) && Inv(st, w') && n in w && n in w' && r in w && r in w'
  {
    && (!Above(w, r, n) && !Above(w, n, r) ==> Abs(st, w', r) == Abs(st, w, r))
    && forall path :: At(w, r, path) == Some(n) ==>
                        Abs(st, w', r) == PutAt(Abs(st, w, r), path, Abs(st, w', n))
  }

  /** Whatever was replaced lies in the tree of `n`, and no entry went away. */
  ghost predicate Within<Ref>(st: Store, w: World<Ref>, w': World<Ref>, n: Ref) {
    && Inv(st, w) && Inv(st, w') && n in w && Grown(w, w')
    && forall r :: r in w ==> WithinIn(st, w, w', n, r)
  }

  lemma {:induction false} AtDeep<Ref>(w: World<Ref>, r: Ref, path: Path, rest: Path)
    requires At(w, r, path).Some?
    ensures At(w, r, path + rest) == At(w, At(w, r, path).value, rest)
    decreases |path|
  {
    if path == [] {
      assert path + rest == rest;
    } else {
      assert (path + rest)[1..] == path[1..] + rest;
      AtDeep(w, w[r].subdirs[path[0]], path[1..], rest);
    }
  }

  lemma {:induction false} AboveTrans<Ref>(w: World<Ref>, a: Ref, b: Ref, c: Ref)
    requires Shape(w) && b in w && c in w && Above(w, a, b) && Above(w, b, c)
    ensures Above(w, a, c)
    decreases w[c].depth
  {
    if b != c {
      assert ShapeAt(w, c) && ShapeAt(w, w[c].parent.value);
      AboveTrans(w, a, b, w[c].parent.value);
    }
  }

  /** Two nodes above the same one are above each other, one way or the other. */
  lemma {:induction false} AboveLinear<Ref>(w: World<Ref>, a: Ref, b: Ref, c: Ref)
    requires Shape(w) && a in w && b in w && c in w && Above(w, a, c) && Above(w, b, c)
    ensures Above(w, a, b) || Above(w, b, a)
    decreases w[c].depth
  {
    if a != c && b != c {
      assert ShapeAt(w, c) && ShapeAt(w, w[c].parent.value);
      AboveLinear(w, a, b, w[c].parent.value);
    }
  }

  /** An edit of a node below `n` is an edit within `n`. */
  lemma WithinByEdit<Ref>(st: Store, w: World<Ref>, w': World<Ref>, n: Ref, rest: Path, s: Ref)
    requires Edited(st, w, w', s) && Grown(w, w') && At(w, n, rest) == Some(s)
    ensures Within(st, w, w', n)
    ensures Abs(st, w', n) == PutAt(Abs(st, w, n), rest, Abs(st, w', s))
  {
    AtIsBelow(w, n, rest, s);
    assert EditedIn(st, w, w', s, n);
    forall r | r in w
      ensures WithinIn(st, w, w', n, r)
    {
      assert EditedIn(st, w, w', s, r);
      if Above(w, r, s) { AboveLinear(w, r, n, s); }
      forall path | At(w, r, path) == Some(n)
        ensures Abs(st, w', r) == PutAt(Abs(st, w, r), path, Abs(st, w', n))
      {
        EditDeep(st, w, w', n, rest, s, r, path);
      }
    }
  }

  lemma EditDeep<Ref>(st: Store, w: World<Ref>, w': World<Ref>, n: Ref, rest: Path, s: Ref, r: Ref, path: Path)
    requires Inv(st, w) && Inv(st, w') && n in w && n in w' && s in w && s in w' && r in w
    requires EditedIn(st, w, w', s, n) && EditedIn(st, w, w', s, r)
    requires At(w, n, rest) == Some(s) && At(w, r, path) == Some(n)
    ensures Abs(st, w', r) == PutAt(Abs(st, w, r), path, Abs(st, w', n))
  {
    AtDeep(w, r, path, rest);
    GetAtAbs(st, w, r, path, n);
    PutDeep(Abs(st, w, r), path, rest, Abs(st, w', s));
  }

  lemma WithinByLoad<Ref>(st: Store, w: World<Ref>, w': World<Ref>, n: Ref)
    requires Unedited(st, w, w') && n in w
    ensures Within(st, w, w', n)
  {
    forall r | r in w
      ensures WithinIn(st, w, w', n, r)
    {
      forall path | At(w, r, path) == Some(n)
        ensures Abs(st, w', r) == PutAt(Abs(st, w, r), path, Abs(st, w', n))
      {
        GetAtAbs(st, w, r, path, n);
        PutBack(Abs(st, w, r), path);
      }
    }
  }

  lemma WithinTwice<Ref>(st: Store, w: World<Ref>, w1: World<Ref>, w2: World<Ref>, n: Ref)
    requires Within(st, w, w1, n) && Within(st, w1, w2, n)
    ensures Within(st, w, w2, n)
  {
    forall r | r in w
      ensures WithinIn(st, w, w2, n, r)
    {
      assert WithinIn(st, w, w1, n, r) && WithinIn(st, w1, w2, n, r);
      AboveCarries(w, w1, r, n);
      AboveCarries(w, w1, n, r);
      forall path | At(w, r, path) == Some(n)
        ensures Abs(st, w2, r) == PutAt(Abs(st, w, r), path, Abs(st, w2, n))
      {
        AtGrows(w, w1, r, path);
        PutTwice(Abs(st, w, r), path, Abs(st, w1, n), Abs(st, w2, n));
      }
    }
    GrownTwice(w, w1, w2);
  }

  lemma GrownTwice<Ref>(w: World<Ref>, w1: World<Ref>, w2: World<Ref>)
    requires Grown(w, w1) && Grown(w1, w2)
    ensures Grown(w, w2)
  {
  }

  lemma UneditedTwice<Ref>(st: Store, w: World<Ref>, w1: World<Ref>, w2: World<Ref>)
    requires Unedited(st, w, w1) && Unedited(st, w1, w2)
    ensures Unedited(st, w, w2)
  {
    GrownTwice(w, w1, w2);
  }
}
