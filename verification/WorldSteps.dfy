/** The elementary steps of the tree operations on snapshots, and what each of them keeps. */
module WorldSteps {
  import opened Options
  import opened DirTrees
  import opened TreePaths
  import opened Worlds
  import opened WorldEdits

  // --- When the two halves of the invariant carry over --------------------------------

  lemma ShapeCarries<Ref>(w: World<Ref>, w': World<Ref>)
    requires Shape(w) && w'.Keys == w.Keys
    requires forall n :: n in w ==>
                           && w'[n].parent == w[n].parent && w'[n].depth == w[n].depth && w'[n].subdirs == w[n].subdirs
                           && w'[n].files.Keys !! w'[n].subdirs.Keys
    ensures Shape(w')
  {
    forall n | n in w'
      ensures ShapeAt(w', n)
    {
      assert ShapeAt(w, n);
      if w[n].parent.Some? {
        var k :| k in w[w[n].parent.value].subdirs && w[w[n].parent.value].subdirs[k] == n;
        assert k in w'[w'[n].parent.value].subdirs;
      }
    }
  }

  /** A node's cache stays right when its tables and what is cached below it stay the same. */
  lemma CacheCarries<Ref>(st: Store, w: World<Ref>, w': World<Ref>, n: Ref)
    requires n in w && n in w' && CacheOk(st, w, n)
    requires w'[n].state == w[n].state && w'[n].files == w[n].files && w'[n].subdirs == w[n].subdirs
    requires w'[n].contents == w[n].contents || (w'[n].state.Whole? && w'[n].contents == None)
    requires w'[n].state.Lazy? ==> w'[n].meta.Some?
    requires w'[n].state.Whole? && w'[n].contents.Some? ==>
               forall k :: k in w[n].subdirs && w[n].subdirs[k] in w ==>
                             var c := w[n].subdirs[k]; c in w' && w'[c].contents == w[c].contents && w'[c].meta == w[c].meta
    ensures CacheOk(st, w', n)
  {
    if w'[n].state.Whole? && w'[n].contents.Some? {
      assert CachedObject(w', n).subdirs == CachedObject(w, n).subdirs;
    }
  }

  /** All caches but that of `n`, which may be about to be dropped. */
  ghost predicate CachesOkBut<Ref>(st: Store, w: World<Ref>, n: Ref) {
    forall m :: m in w && m != n ==> CacheOk(st, w, m)
  }

  /** Away from `n`, all that happened is that caches were dropped. */
  ghost predicate Trimmed<Ref>(w: World<Ref>, w': World<Ref>, n: Ref) {
    w'.Keys == w.Keys && forall m :: m in w && m != n ==> w'[m] == w[m] || w'[m] == w[m].(contents := None)
  }

  /** Changing the tables of one node leaves every other cache right. */
  lemma CachesCarry<Ref>(st: Store, w: World<Ref>, w': World<Ref>, n: Ref)
    requires n in w && CachesOkBut(st, w, n)
    requires forall m :: m in w ==> m in w' && w'[m].state == w[m].state && w'[m].contents == w[m].contents && w'[m].meta == w[m].meta
    requires forall m :: m in w && m != n ==> w'[m].files == w[m].files && w'[m].subdirs == w[m].subdirs
    ensures forall m :: m in w && m != n ==> CacheOk(st, w', m)
  {
    forall m | m in w && m != n
      ensures CacheOk(st, w', m)
    {
      CacheCarries(st, w, w', m);
    }
  }

  // --- invalidate_contents_checksum ---------------------------------------------------

  /** The caches of `start` and of everything above it dropped, and no others. */
  ghost function Cleared<Ref>(w: World<Ref>, start: Ref): World<Ref>
    requires Shape(w) && start in w
  {
    map n | n in w :: if Above(w, n, start) then w[n].(contents := None) else w[n]
  }

  /** A missing checksum is missing all the way up, which is what lets the upward loop stop early. */
  lemma {:induction false} NoneGoesUp<Ref>(st: Store, w: World<Ref>, n: Ref, a: Ref)
    requires Shape(w) && n in w && w[n].contents == None && Above(w, a, n)
    requires forall m :: m in w && m != n && Above(w, m, n) ==> CacheOk(st, w, m)
    ensures a in w && w[a].contents == None
    decreases w[n].depth
  {
    if a != n {
      var p := w[n].parent.value;
      assert ShapeAt(w, n) && ShapeAt(w, p);
      AboveDepth(w, p, p);
      AboveParent(w, n, n);
      assert CacheOk(st, w, p);
      forall m | m in w && m != p && Above(w, m, p)
        ensures CacheOk(st, w, m)
      {
        AboveDepth(w, m, p);
      }
      NoneGoesUp(st, w, p, a);
    }
  }

  /** The upward loop: drop caches from `n` on, stopping at the first that is already missing. */
  ghost function ClearUp<Ref>(w: World<Ref>, n: Ref): World<Ref>
    requires n in w
    decreases w[n].depth
  {
    if w[n].contents == None then w
    else
      var w' := w[n := w[n].(contents := None)];
      var p := w[n].parent;
      if p.Some? && p.value in w' && w'[p.value].depth < w[n].depth then ClearUp(w', p.value) else w'
  }

  lemma {:induction false} ClearUpTables<Ref>(w: World<Ref>, n: Ref)
    requires n in w
    ensures ClearUp(w, n).Keys == w.Keys
    ensures forall m :: m in w ==> ClearUp(w, n)[m] == w[m] || ClearUp(w, n)[m] == w[m].(contents := None)
    decreases w[n].depth
  {
    var w' := w[n := w[n].(contents := None)];
    var p := w[n].parent;
    if w[n].contents.Some? && p.Some? && p.value in w' && w'[p.value].depth < w[n].depth {
      ClearUpTables(w', p.value);
    }
  }

  /**
   The early stop is sound: the loop drops the cache of `n` and of everything above it,
   because a missing checksum is missing all the way up.
   */
  lemma {:induction false} ClearUpAt<Ref>(st: Store, w: World<Ref>, n: Ref, m: Ref)
    requires Shape(w) && n in w && m in w
    requires forall x :: x in w && x != n && Above(w, x, n) ==> CacheOk(st, w, x)
    ensures m in ClearUp(w, n)
    ensures ClearUp(w, n)[m] == if Above(w, m, n) then w[m].(contents := None) else w[m]
    decreases w[n].depth
  {
    if w[n].contents == None {
      if Above(w, m, n) { NoneGoesUp(st, w, n, m); }
    } else if w[n].parent.Some? {
      var p, w' := w[n].parent.value, w[n := w[n].(contents := None)];
      assert ShapeAt(w, n) && ShapeAt(w, p);
      ClearUpStep(st, w, n, p);
      ClearUpAt(st, w', p, m);
      AboveCarries(w, w', m, p);
      if m == n && Above(w, m, p) { AboveDepth(w, m, p); }
    }
  }

  lemma ClearUpIsCleared<Ref>(st: Store, w: World<Ref>, n: Ref)
    requires Shape(w) && n in w
    requires forall x :: x in w && x != n && Above(w, x, n) ==> CacheOk(st, w, x)
    ensures ClearUp(w, n) == Cleared(w, n)
  {
    ClearUpTables(w, n);
    forall m | m in w
      ensures ClearUp(w, n)[m] == if Above(w, m, n) then w[m].(contents := None) else w[m]
    {
      ClearUpAt(st, w, n, m);
    }
  }

  lemma ClearUpStep<Ref>(st: Store, w: World<Ref>, n: Ref, p: Ref)
    requires Shape(w) && n in w && p in w && w[n].parent == Some(p)
    requires forall x :: x in w && x != n && Above(w, x, n) ==> CacheOk(st, w, x)
    ensures var w' := w[n := w[n].(contents := None)];
            && Shape(w') && p in w' && w'[p].depth < w[n].depth
            && forall x :: x in w' && x != p && Above(w', x, p) ==> CacheOk(st, w', x)
  {
    var w' := w[n := w[n].(contents := None)];
    assert ShapeAt(w, n) && ShapeAt(w, p);
    forall m | m in w
      ensures w'[m].files.Keys !! w'[m].subdirs.Keys
    {
      assert ShapeAt(w, m);
    }
    ShapeCarries(w, w');
    forall x | x in w' && x != p && Above(w', x, p)
      ensures CacheOk(st, w', x)
    {
      hide CacheOk, ShapeAt;
      AboveCarries(w, w', x, p);
      ClearUpStepCache(st, w, n, p, x);
    }
  }

  lemma ClearUpStepCache<Ref>(st: Store, w: World<Ref>, n: Ref, p: Ref, x: Ref)
    requires Shape(w) && n in w && p in w && w[n].parent == Some(p)
    requires forall x :: x in w && x != n && Above(w, x, n) ==> CacheOk(st, w, x)
    requires x in w && x != p && Above(w, x, p)
    ensures CacheOk(st, w[n := w[n].(contents := None)], x)
  {
    assert ShapeAt(w, n) && ShapeAt(w, x);
    AboveDepth(w, x, p);
    AboveParent(w, n, n);
    assert Above(w, x, n);
    CacheCarries(st, w, w[n := w[n].(contents := None)], x);
  }

  lemma ClearedKeeps<Ref>(st: Store, w: World<Ref>, start: Ref)
    requires Shape(w) && start in w
    requires CachesOkBut(st, w, start)
    ensures Shape(Cleared(w, start)) && CachesOkBut(st, Cleared(w, start), start)
    ensures w[start].state.Whole? ==> CacheOk(st, Cleared(w, start), start)
  {
    var w' := Cleared(w, start);
    ClearedShape(w, start);
    forall m | m in w && m != start
      ensures CacheOk(st, w', m)
    {
      ClearedCache(st, w, start, m);
    }
  }

  lemma ClearedShape<Ref>(w: World<Ref>, start: Ref)
    requires Shape(w) && start in w
    ensures Shape(Cleared(w, start))
  {
    forall n | n in w
      ensures w[n].files.Keys !! w[n].subdirs.Keys
    {
      assert ShapeAt(w, n);
    }
    ShapeCarries(w, Cleared(w, start));
  }

  lemma ClearedCache<Ref>(st: Store, w: World<Ref>, start: Ref, m: Ref)
    requires Shape(w) && start in w && m in w && m != start && CacheOk(st, w, m)
    ensures CacheOk(st, Cleared(w, start), m)
  {
    var w' := Cleared(w, start);
    assert ShapeAt(w, m);
    if Above(w, m, start) {
      AboveHasChild(w, m, start);
      CacheCarries(st, w, w', m);
    } else {
      forall k | k in w[m].subdirs
        ensures w'[w[m].subdirs[k]] == w[w[m].subdirs[k]]
      {
        if Above(w, w[m].subdirs[k], start) { AboveParent(w, w[m].subdirs[k], start); }
      }
      CacheCarries(st, w, w', m);
    }
  }

  /** A directory above another one is loaded. */
  lemma {:induction false} AboveHasChild<Ref>(w: World<Ref>, a: Ref, n: Ref)
    requires Shape(w) && n in w && a != n && Above(w, a, n)
    ensures a in w && w[a].subdirs != map[]
    decreases w[n].depth
  {
    assert ShapeAt(w, n) && ShapeAt(w, w[n].parent.value);
    if a != w[n].parent.value {
      AboveHasChild(w, a, w[n].parent.value);
    }
  }

  /** After the climb from a loaded node the whole invariant holds again. */
  lemma ClearUpRestores<Ref>(st: Store, w: World<Ref>, n: Ref)
    requires st.Valid() && Shape(w) && n in w && w[n].state.Whole? && CachesOkBut(st, w, n)
    ensures Inv(st, ClearUp(w, n)) && ClearUp(w, n).Keys == w.Keys
    ensures ClearUp(w, n)[n] == w[n].(contents := None)
  {
    ClearUpIsCleared(st, w, n);
    ClearedKeeps(st, w, n);
  }

  // --- Table updates of one node: they keep the shape and all other caches -------------

  lemma SetFilesKeeps<Ref>(st: Store, w: World<Ref>, n: Ref, files: map<Name, Checksum>)
    requires Inv(st, w) && n in w && files.Keys !! w[n].subdirs.Keys
    ensures Shape(w[n := w[n].(files := files)]) && CachesOkBut(st, w[n := w[n].(files := files)], n)
  {
    var w' := w[n := w[n].(files := files)];
    forall m | m in w
      ensures w'[m].files.Keys !! w'[m].subdirs.Keys
    {
      assert ShapeAt(w, m);
    }
    ShapeCarries(w, w');
    CachesCarry(st, w, w', n);
  }

  /** set_metadata_checksum: a real change drops the caches from the parent up. */
  ghost function WithMeta<Ref>(w: World<Ref>, n: Ref, meta: Checksum): World<Ref>
    requires n in w
  {
    if w[n].meta == Some(meta) then w
    else
      var w1 := if w[n].parent.Some? && w[n].parent.value in w then ClearUp(w, w[n].parent.value) else w;
      if n in w1 then w1[n := w1[n].(meta := Some(meta))] else w1
  }

  lemma WithMetaKeeps<Ref>(st: Store, w: World<Ref>, n: Ref, meta: Checksum)
    requires Shape(w) && n in w && CachesOkBut(st, w, n)
    ensures var w' := WithMeta(w, n, meta);
            && Trimmed(w, w', n) && Shape(w') && CachesOkBut(st, w', n) && w'[n] == w[n].(meta := Some(meta))
            && forall m :: m in w && !Above(w, m, n) ==> w'[m] == w[m]
  {
    assert ShapeAt(w, n);
    if w[n].meta != Some(meta) {
      if w[n].parent.Some? {
        WithMetaBelow(st, w, n, w[n].parent.value, meta);
      } else {
        SetMetaKeeps(st, w, n, meta);
      }
    }
  }

  lemma WithMetaBelow<Ref>(st: Store, w: World<Ref>, n: Ref, p: Ref, meta: Checksum)
    requires Shape(w) && n in w && CachesOkBut(st, w, n) && w[n].parent == Some(p) && p in w && w[n].meta != Some(meta)
    ensures var w' := WithMeta(w, n, meta);
            && Trimmed(w, w', n) && Shape(w') && CachesOkBut(st, w', n) && w'[n] == w[n].(meta := Some(meta))
            && forall m :: m in w && !Above(w, m, n) ==> w'[m] == w[m]
  {
    var w1 := ClearUp(w, p);
    ParentIsApart(w, n, p);
    ClearUpIsCleared(st, w, p);
    ClearUpTables(w, p);
    ClearedShape(w, p);
    forall m | m in w && m != n
      ensures CacheOk(st, w1, m)
    {
      if m != p { ClearedCache(st, w, p, m); } else { ClearedTop(st, w, p); }
    }
    assert w1[p].contents == None;
    assert w1[n] == w[n];
    SetMetaKeeps(st, w1, n, meta);
  }

  lemma ParentIsApart<Ref>(w: World<Ref>, n: Ref, p: Ref)
    requires Shape(w) && n in w && w[n].parent == Some(p)
    ensures p in w && p != n && !Above(w, n, p)
    ensures w[p].subdirs != map[]
    ensures forall m :: Above(w, m, p) ==> Above(w, m, n)
  {
    assert ShapeAt(w, n) && ShapeAt(w, p);
    if Above(w, n, p) { AboveDepth(w, n, p); }
  }

  lemma ClearedTop<Ref>(st: Store, w: World<Ref>, p: Ref)
    requires Shape(w) && p in w && CacheOk(st, w, p) && w[p].subdirs != map[]
    ensures CacheOk(st, Cleared(w, p), p)
  {
    CacheCarries(st, w, Cleared(w, p), p);
  }

  /** New metadata is allowed once the parent's cache is dropped. */
  lemma SetMetaKeeps<Ref>(st: Store, w: World<Ref>, n: Ref, meta: Checksum)
    requires Shape(w) && n in w && CachesOkBut(st, w, n)
    requires w[n].parent.Some? ==> w[n].parent.value in w && w[w[n].parent.value].contents == None
    ensures Shape(w[n := w[n].(meta := Some(meta))])
    ensures CachesOkBut(st, w[n := w[n].(meta := Some(meta))], n)
  {
    var w' := w[n := w[n].(meta := Some(meta))];
    forall m | m in w
      ensures w'[m].files.Keys !! w'[m].subdirs.Keys
      ensures m != n ==> CacheOk(st, w', m)
    {
      assert DownOk(w, m);
      if m != n { CacheCarries(st, w, w', m); }
    }
    ShapeCarries(w, w');
  }

  /** `n` without its entry `k`; the child's parent link is cleared. */
  ghost function WithoutChild<Ref>(w: World<Ref>, n: Ref, k: Name): World<Ref>
    requires n in w && k in w[n].subdirs && w[n].subdirs[k] in w
  {
    var c := w[n].subdirs[k];
    w[n := w[n].(subdirs := w[n].subdirs - {k})][c := w[c].(parent := None)]
  }

  lemma WithoutChildKeeps<Ref>(st: Store, w: World<Ref>, n: Ref, k: Name)
    requires Inv(st, w) && n in w && k in w[n].subdirs
    ensures w[n].subdirs[k] in w && w[n].subdirs[k] != n
    ensures Shape(WithoutChild(w, n, k)) && CachesOkBut(st, WithoutChild(w, n, k), n)
  {
    assert ShapeAt(w, n);
    forall m | m in w
      ensures ShapeAt(WithoutChild(w, n, k), m)
    {
      WithoutChildUp(w, n, k, m);
      WithoutChildDown(w, n, k, m);
    }
    WithoutChildCaches(st, w, n, k);
  }

  lemma WithoutChildCaches<Ref>(st: Store, w: World<Ref>, n: Ref, k: Name)
    requires n in w && k in w[n].subdirs && w[n].subdirs[k] in w && w[n].subdirs[k] != n
    requires CachesOkBut(st, w, n)
    ensures CachesOkBut(st, WithoutChild(w, n, k), n)
  {
    CachesCarry(st, w, WithoutChild(w, n, k), n);
  }

  lemma WithoutChildUp<Ref>(w: World<Ref>, n: Ref, k: Name, m: Ref)
    requires Shape(w) && n in w && m in w && k in w[n].subdirs && w[n].subdirs[k] in w && w[n].subdirs[k] != n
    ensures UpOk(WithoutChild(w, n, k), m)
  {
    var w' := WithoutChild(w, n, k);
    assert UpOk(w, m);
    if w'[m].parent.Some? {
      var p := w[m].parent.value;
      var j :| j in w[p].subdirs && w[p].subdirs[j] == m;
      assert j in w'[p].subdirs && w'[p].subdirs[j] == m;
    }
  }

  lemma WithoutChildDown<Ref>(w: World<Ref>, n: Ref, k: Name, m: Ref)
    requires n in w && m in w && DownOk(w, n) && DownOk(w, m)
    requires k in w[n].subdirs && w[n].subdirs[k] in w && w[n].subdirs[k] != n
    ensures DownOk(WithoutChild(w, n, k), m)
  {
    var w' := WithoutChild(w, n, k);
    forall j | j in w'[m].subdirs
      ensures j in w[m].subdirs && w'[m].subdirs[j] == w[m].subdirs[j] && w[m].subdirs[j] != w[n].subdirs[k]
    {
      assert m != n ==> w[w[m].subdirs[j]].parent == Some(m);
    }
  }

  /** `n` with a new entry `k` for a node `c` that was not there before. */
  ghost function WithChild<Ref>(w: World<Ref>, n: Ref, k: Name, c: Ref, meta: Option<Checksum>): World<Ref>
    requires n in w
  {
    w[c := Node(Some(n), Whole, None, meta, map[], map[], w[n].depth + 1)][n := w[n].(subdirs := w[n].subdirs[k := c])]
  }

  lemma WithChildKeeps<Ref>(st: Store, w: World<Ref>, n: Ref, k: Name, c: Ref, meta: Option<Checksum>)
    requires Inv(st, w) && n in w && w[n].state.Whole? && w[n].contents == None && c !in w
    requires k !in w[n].files && k !in w[n].subdirs
    ensures Inv(st, WithChild(w, n, k, c, meta))
  {
    var w' := WithChild(w, n, k, c, meta);
    forall m | m in w'
      ensures ShapeAt(w', m)
    {
      hide UpOk, CacheOk;
      WithChildUp(w, n, k, c, meta, m);
      WithChildDown(w, n, k, c, meta, m);
    }
    WithChildCaches(st, w, n, k, c, meta);
  }

  lemma WithChildCaches<Ref>(st: Store, w: World<Ref>, n: Ref, k: Name, c: Ref, meta: Option<Checksum>)
    requires n in w && w[n].state.Whole? && w[n].contents == None && c !in w && CachesOkBut(st, w, n)
    ensures forall m :: m in WithChild(w, n, k, c, meta) ==> CacheOk(st, WithChild(w, n, k, c, meta), m)
  {
    CachesCarry(st, w, WithChild(w, n, k, c, meta), n);
  }

  lemma WithChildUp<Ref>(w: World<Ref>, n: Ref, k: Name, c: Ref, meta: Option<Checksum>, m: Ref)
    requires Shape(w) && n in w && c !in w && (m in w || m == c) && k !in w[n].subdirs
    ensures UpOk(WithChild(w, n, k, c, meta), m)
  {
    var w' := WithChild(w, n, k, c, meta);
    if m == c {
      assert k in w'[n].subdirs && w'[n].subdirs[k] == c;
    } else {
      assert UpOk(w, m);
      if w[m].parent.Some? {
        var p := w[m].parent.value;
        var j :| j in w[p].subdirs && w[p].subdirs[j] == m;
        assert j in w'[p].subdirs && w'[p].subdirs[j] == m;
      }
    }
  }

  lemma WithChildDown<Ref>(w: World<Ref>, n: Ref, k: Name, c: Ref, meta: Option<Checksum>, m: Ref)
    requires n in w && c !in w && (m in w || m == c) && DownOk(w, n) && (m in w ==> DownOk(w, m))
    requires k !in w[n].files && k !in w[n].subdirs
    ensures DownOk(WithChild(w, n, k, c, meta), m)
  {
    var w' := WithChild(w, n, k, c, meta);
    if m != c {
      forall j | j in w'[m].subdirs && (m != n || j != k)
        ensures j in w[m].subdirs && w'[m].subdirs[j] == w[m].subdirs[j] && w[m].subdirs[j] in w
      {
      }
    }
  }

  // --- Loading a lazy directory -------------------------------------------------------

  /** The child that loading makes for one entry: lazy, and read from the same repository. */
  ghost function LazyChild<Ref>(n: Ref, node: Node<Ref>, e: DirEntry): Node<Ref> {
    Node(Some(n), node.state, Some(e.contents), Some(e.meta), map[], map[], node.depth + 1)
  }

  /** `w'` is `w` with the lazy node `n` loaded from `obj`, `kids` being the new children. */
  ghost predicate IsLoaded<Ref>(w: World<Ref>, w': World<Ref>, n: Ref, obj: DirTree, kids: map<Name, Ref>) {
    && n in w && w'.Keys == w.Keys + kids.Values
    && kids.Keys == obj.subdirs.Keys
    && (forall j, k :: j in kids && k in kids && kids[j] == kids[k] ==> j == k)
    && (forall k :: k in kids ==> kids[k] !in w && w'[kids[k]] == LazyChild(n, w[n], obj.subdirs[k]))
    && (forall m :: m in w && m != n ==> w'[m] == w[m])
    && w'[n] == w[n].(state := Whole, files := obj.files, subdirs := kids)
  }

  lemma LoadKeepsShape<Ref>(st: Store, w: World<Ref>, w': World<Ref>, n: Ref, obj: DirTree, kids: map<Name, Ref>)
    requires Shape(w) && IsLoaded(w, w', n, obj, kids) && obj.files.Keys !! obj.subdirs.Keys && w[n].subdirs == map[]
    ensures Shape(w')
  {
    forall m | m in w'
      ensures ShapeAt(w', m)
    {
      if m in w {
        assert ShapeAt(w, m);
        if w[m].parent.Some? {
          var p := w[m].parent.value;
          var j :| j in w[p].subdirs && w[p].subdirs[j] == m;
          assert j in w'[p].subdirs && w'[p].subdirs[j] == m;
        }
        assert DownOk(w', m);
      } else {
        var k :| k in kids && kids[k] == m;
        assert k in w'[n].subdirs && w'[n].subdirs[k] == m;
        assert DownOk(w', m);
      }
    }
  }

  lemma LoadKeepsCache<Ref>(st: Store, w: World<Ref>, w': World<Ref>, n: Ref, obj: DirTree, kids: map<Name, Ref>, m: Ref)
    requires m in w && m != n && DownOk(w, m) && CacheOk(st, w, m) && IsLoaded(w, w', n, obj, kids)
    ensures CacheOk(st, w', m)
  {
    CacheCarries(st, w, w', m);
  }

  lemma LoadSetsCaches<Ref>(st: Store, w: World<Ref>, w': World<Ref>, n: Ref, obj: DirTree, kids: map<Name, Ref>)
    requires IsLoaded(w, w', n, obj, kids) && w[n].state.Lazy? && CacheOk(st, w, n)
    requires obj == st.objects[w[n].contents.value] && st.ObjectOk(w[n].contents.value)
    ensures CacheOk(st, w', n)
    ensures forall k :: k in kids ==> CacheOk(st, w', kids[k])
  {
    assert CachedObject(w', n).subdirs == obj.subdirs;
  }

  lemma LoadKeepsCaches<Ref>(st: Store, w: World<Ref>, w': World<Ref>, n: Ref, obj: DirTree, kids: map<Name, Ref>)
    requires Inv(st, w) && IsLoaded(w, w', n, obj, kids) && w[n].state.Lazy?
    requires w[n].contents.value in st.objects && obj == st.objects[w[n].contents.value]
    ensures forall m :: m in w' ==> CacheOk(st, w', m)
  {
    assert CacheOk(st, w, n) && st.ObjectOk(w[n].contents.value);
    LoadSetsCaches(st, w, w', n, obj, kids);
    forall m | m in w && m != n
      ensures CacheOk(st, w', m)
    {
      assert ShapeAt(w, m);
      LoadKeepsCache(st, w, w', n, obj, kids, m);
    }
  }

  /** Loading is invisible: it keeps the invariant, and the tree of every node. */
  lemma LoadKeeps<Ref>(st: Store, w: World<Ref>, w': World<Ref>, n: Ref, obj: DirTree, kids: map<Name, Ref>)
    requires Inv(st, w) && IsLoaded(w, w', n, obj, kids) && w[n].state.Lazy?
    requires w[n].contents.value in st.objects && obj == st.objects[w[n].contents.value]
    ensures Unedited(st, w, w')
  {
    assert CacheOk(st, w, n) && st.ObjectOk(w[n].contents.value);
    LoadKeepsShape(st, w, w', n, obj, kids);
    LoadKeepsCaches(st, w, w', n, obj, kids);
    LoadKeepsAbs(st, w, w', n, obj, kids);
    LoadGrows(w, w', n, obj, kids);
    forall m | m in w
      ensures Abs(st, w', m) == Abs(st, w, m)
    {
      StutterAt(st, w, w', n, m);
    }
  }

  lemma LoadGrows<Ref>(w: World<Ref>, w': World<Ref>, n: Ref, obj: DirTree, kids: map<Name, Ref>)
    requires IsLoaded(w, w', n, obj, kids) && w[n].subdirs == map[]
    ensures Grown(w, w') && SameExceptAt(w, w', n)
  {
  }

  /** A new child stands for the tree that its entry names. */
  lemma LoadedChild<Ref>(st: Store, w: World<Ref>, w': World<Ref>, n: Ref, obj: DirTree, kids: map<Name, Ref>, k: Name)
    requires Inv(st, w') && IsLoaded(w, w', n, obj, kids) && w[n].state.Lazy? && k in kids
    ensures obj.subdirs[k].contents in st.objects && k in Abs(st, w', n).subdirs
    ensures Abs(st, w', n).subdirs[k] == Resolve(st, obj.subdirs[k].contents, obj.subdirs[k].meta)
  {
    AbsChild(st, w', n, k);
    assert CacheOk(st, w', kids[k]);
  }

  lemma LoadedTop<Ref>(st: Store, w: World<Ref>, w': World<Ref>, n: Ref, obj: DirTree, kids: map<Name, Ref>)
    requires Inv(st, w) && Inv(st, w') && IsLoaded(w, w', n, obj, kids) && w[n].state.Lazy?
    requires w[n].contents.value in st.objects && obj == st.objects[w[n].contents.value]
    ensures var t, t' := Abs(st, w, n), Abs(st, w', n);
            && t == Resolve(st, w[n].contents.value, w[n].meta.value)
            && t.meta == t'.meta && t.files == t'.files && t.subdirs.Keys == t'.subdirs.Keys == kids.Keys
  {
    assert CacheOk(st, w, n);
    assert Abs(st, w, n) == Resolve(st, w[n].contents.value, w[n].meta.value);
    hide Abs, Inv, CacheOk;
    AbsWhole(st, w', n);
  }

  lemma LoadKeepsAbs<Ref>(st: Store, w: World<Ref>, w': World<Ref>, n: Ref, obj: DirTree, kids: map<Name, Ref>)
    requires Inv(st, w) && Inv(st, w') && IsLoaded(w, w', n, obj, kids) && w[n].state.Lazy?
    requires w[n].contents.value in st.objects && obj == st.objects[w[n].contents.value]
    ensures Abs(st, w', n) == Abs(st, w, n)
  {
    LoadedTop(st, w, w', n, obj, kids);
    forall k | k in kids
      ensures Abs(st, w', n).subdirs[k] == Abs(st, w, n).subdirs[k]
    {
      hide Inv, Abs;
      LoadedChild(st, w, w', n, obj, kids, k);
    }
    hide *;
    TreesFromChildren(Abs(st, w, n), Abs(st, w', n), None);
  }
}
