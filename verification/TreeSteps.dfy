/** What the table updates of the tree operations mean for the trees. */
module TreeSteps {
  import opened Options
  import opened DirTrees
  import opened TreePaths
  import opened TreeCommands
  import opened Worlds
  import opened WorldEdits
  import opened WorldSteps
  import opened LazyMarks

  /** `w1` differs from `w` in the tables of `n` and, elsewhere, at most in parent links. */
  ghost predicate TouchedAt<Ref>(w: World<Ref>, w1: World<Ref>, n: Ref) {
    forall m :: m in w ==> m in w1 && (m == n || (SameTables(w[m], w1[m]) && w1[m].contents == w[m].contents))
  }

  /** Updating the tables of a loaded node and then climbing from it is an edit of that node. */
  lemma UpdateThenClear<Ref>(st: Store, w: World<Ref>, w1: World<Ref>, n: Ref)
    requires Inv(st, w) && n in w && TouchedAt(w, w1, n)
    requires Shape(w1) && w1[n].state.Whole? && CachesOkBut(st, w1, n)
    ensures Edited(st, w, ClearUp(w1, n), n) && ClearUp(w1, n)[n] == w1[n].(contents := None)
  {
    var w' := ClearUp(w1, n);
    ClearUpRestores(st, w1, n);
    ClearUpTables(w1, n);
    forall m | m in w && m != n
      ensures SameTables(w[m], w'[m])
    {
      assert CacheOk(st, w', m);
    }
    EditedByTables(st, w, w', n);
  }

  lemma ClearUpKeepsTables<Ref>(st: Store, w: World<Ref>, n: Ref)
    requires n in w && Inv(st, ClearUp(w, n))
    ensures forall m :: m in w ==> m in ClearUp(w, n) && SameTables(w[m], ClearUp(w, n)[m])
  {
    ClearUpTables(w, n);
    forall m | m in w
      ensures SameTables(w[m], ClearUp(w, n)[m])
    {
      assert CacheOk(st, ClearUp(w, n), m);
    }
  }

  /** After an edit of a loaded node its remaining children are as they were. */
  lemma ChildKept<Ref>(st: Store, w: World<Ref>, w': World<Ref>, n: Ref, k: Name)
    requires Edited(st, w, w', n) && w[n].state.Whole? && w'[n].state.Whole?
    requires k in w[n].subdirs && k in w'[n].subdirs && w'[n].subdirs[k] == w[n].subdirs[k]
    ensures k in Abs(st, w, n).subdirs && k in Abs(st, w', n).subdirs
    ensures Abs(st, w', n).subdirs[k] == Abs(st, w, n).subdirs[k]
  {
    var c := w[n].subdirs[k];
    AbsChild(st, w, n, k);
    AbsChild(st, w', n, k);
    ChildIsBelow(w, n, k);
    assert DownOk(w, n);
    if Above(w, c, n) { AboveDepth(w, c, n); }
    assert EditedIn(st, w, w', n, c);
  }

  lemma FilesEdit<Ref>(st: Store, w: World<Ref>, w': World<Ref>, n: Ref, files: map<Name, Checksum>)
    requires Edited(st, w, w', n) && w[n].state.Whole?
    requires w'[n] == w[n].(files := files, contents := None)
    ensures Abs(st, w', n) == Abs(st, w, n).(files := files)
  {
    AbsWhole(st, w, n);
    AbsWhole(st, w', n);
    forall k | k in w[n].subdirs
      ensures Abs(st, w', n).subdirs[k] == Abs(st, w, n).subdirs[k]
    {
      ChildKept(st, w, w', n, k);
    }
    TreesFromChildren(Abs(st, w, n).(files := files), Abs(st, w', n), None);
  }

  lemma RemovalEdit<Ref>(st: Store, w: World<Ref>, w': World<Ref>, n: Ref, k: Name)
    requires Edited(st, w, w', n) && w[n].state.Whole?
    requires w'[n] == w[n].(subdirs := w[n].subdirs - {k}, contents := None)
    ensures Abs(st, w', n) == Abs(st, w, n).(subdirs := Abs(st, w, n).subdirs - {k})
  {
    var t, t' := Abs(st, w, n), Abs(st, w', n);
    AbsWhole(st, w, n);
    AbsWhole(st, w', n);
    forall j | j in w'[n].subdirs
      ensures t'.subdirs[j] == t.subdirs[j]
    {
      ChildKept(st, w, w', n, j);
    }
    TreesFromChildren(t.(subdirs := t.subdirs - {k}), t', None);
  }

  lemma AdditionEdit<Ref>(st: Store, w: World<Ref>, w': World<Ref>, n: Ref, k: Name, c: Ref)
    requires Edited(st, w, w', n) && w[n].state.Whole? && k !in w[n].subdirs
    requires w'[n] == w[n].(subdirs := w[n].subdirs[k := c], contents := None)
    ensures c in w'
    ensures Abs(st, w', n) == Abs(st, w, n).(subdirs := Abs(st, w, n).subdirs[k := Abs(st, w', c)])
  {
    EditedInvs(st, w, w', n);
    hide Inv, Edited, Abs;
    var t, t' := Abs(st, w, n), Abs(st, w', n);
    AbsWhole(st, w, n);
    AbsWhole(st, w', n);
    AbsChild(st, w', n, k);
    forall j | j in w[n].subdirs
      ensures t'.subdirs[j] == t.subdirs[j]
    {
      ChildKept(st, w, w', n, j);
    }
    OneMoreChild(t, t', k);
  }

  lemma EditedInvs<Ref>(st: Store, w: World<Ref>, w': World<Ref>, n: Ref)
    requires Edited(st, w, w', n)
    ensures Inv(st, w) && Inv(st, w') && n in w && n in w'
  {
  }

  lemma OneMoreChild(t: Tree, t': Tree, k: Name)
    requires t.meta == t'.meta && t.files == t'.files && t'.subdirs.Keys == t.subdirs.Keys + {k}
    requires forall j :: j in t.subdirs ==> t'.subdirs[j] == t.subdirs[j]
    ensures t' == t.(subdirs := t.subdirs[k := t'.subdirs[k]])
  {
    assert t'.subdirs == t.subdirs[k := t'.subdirs[k]];
  }

  lemma NewChildIsEmpty<Ref>(st: Store, w: World<Ref>, c: Ref, meta: Option<Checksum>)
    requires Inv(st, w) && c in w && w[c].state.Whole? && w[c].files == map[] && w[c].subdirs == map[] && w[c].meta == meta
    ensures Abs(st, w, c) == EMPTY_TREE.(meta := meta)
  {
    assert Abs(st, w, c).subdirs == map[];
  }

  // --- Agreement with the reference semantics -----------------------------------------

  /** An operation on `n` did to its tree what it does to a pure tree, and nothing else. */
  ghost predicate Performed<Ref>(st: Store, w: World<Ref>, w': World<Ref>, n: Ref, op: Op, reply: Reply) {
    && Edited(st, w, w', n)
    && (Abs(st, w', n), reply) == Apply(op, Abs(st, w, n))
    && Marked(w, w', n, EffectOf(op, Abs(st, w, n)))
  }

  lemma PerformedAfter<Ref>(st: Store, w: World<Ref>, w1: World<Ref>, w2: World<Ref>, n: Ref, op: Op, reply: Reply)
    requires n in w && Unedited(st, w, w1) && Performed(st, w1, w2, n, op, reply)
    requires Marked(w, w1, n, LOAD) && EffectOf(op, Abs(st, w1, n)).load
    ensures Performed(st, w, w2, n, op, reply)
  {
    hide Marked, EffectOf;
    EditedAfter(st, w, w1, w2, n);
    MarkedAfter(w, w1, w2, n, EffectOf(op, Abs(st, w1, n)));
  }

  lemma PerformedNothing<Ref>(st: Store, w: World<Ref>, n: Ref, op: Op, reply: Reply)
    requires Inv(st, w) && n in w && Apply(op, Abs(st, w, n)) == (Abs(st, w, n), reply)
    requires var e := EffectOf(op, Abs(st, w, n)); e == NO_EFFECT || (e == LOAD && w[n].state.Whole?)
    ensures Performed(st, w, w, n, op, reply)
  {
    hide Marked;
    EditedByTables(st, w, w, n);
    MarkedNothing(w, w, n, EffectOf(op, Abs(st, w, n)));
  }

  // --- The operations -----------------------------------------------------------------

  /** replace_file: the caches are dropped first, then the entry is written. */
  lemma ReplaceFileStep<Ref>(st: Store, w: World<Ref>, n: Ref, name: Name, c: Checksum)
    requires Inv(st, w) && n in w && w[n].state.Whole? && ValidName(name) && name !in w[n].subdirs
    ensures var w' := ClearUp(w, n)[n := w[n].(contents := None, files := w[n].files[name := c])];
            Performed(st, w, w', n, ReplaceFile(name, c), Done)
  {
    hide Inv, Edited, Abs, Marked;
    ReplacedFile(st, w, n, name, c);
    AbsWhole(st, w, n);
  }

  lemma ReplacedFile<Ref>(st: Store, w: World<Ref>, n: Ref, name: Name, c: Checksum)
    requires Inv(st, w) && n in w && w[n].state.Whole? && name !in w[n].subdirs
    ensures var f := w[n].files[name := c];
            var w' := ClearUp(w, n)[n := w[n].(contents := None, files := f)];
            Edited(st, w, w', n) && Abs(st, w', n) == Abs(st, w, n).(files := f) && Marked(w, w', n, LOAD)
  {
    hide Marked;
    var f := w[n].files[name := c];
    var w1 := ClearUp(w, n);
    ClearUpRestores(st, w, n);
    assert DownOk(w, n);
    SetFilesKeeps(st, w1, n, f);
    var w' := w1[n := w1[n].(files := f)];
    ClearUpKeepsTables(st, w, n);
    EditedByTables(st, w, w', n);
    ClearUpLinks(w, n);
    FilesStep(st, w, w', n, f);
  }

  /** Only the files of a loaded node were replaced. */
  lemma FilesStep<Ref>(st: Store, w: World<Ref>, w': World<Ref>, n: Ref, f: map<Name, Checksum>)
    requires Edited(st, w, w', n) && w[n].state.Whole? && LinksAt(w, w', n)
    requires w'[n] == w[n].(files := f, contents := None)
    ensures Abs(st, w', n) == Abs(st, w, n).(files := f) && Marked(w, w', n, LOAD)
  {
    FilesEdit(st, w, w', n, f);
    hide *;
    MarkedNothing(w, w', n, LOAD) by { EditedShape(st, w, w', n); SameLinksHere(w[n], w'[n]); }
  }

  lemma EditedShape<Ref>(st: Store, w: World<Ref>, w': World<Ref>, n: Ref)
    requires Edited(st, w, w', n)
    ensures Shape(w) && n in w && n in w'
  {
  }

  lemma SameLinksHere<Ref>(a: Node<Ref>, b: Node<Ref>)
    requires b == a.(files := b.files, contents := b.contents)
    ensures SameLinks(a, b)
  {
  }

  /** remove: the entry goes first, then the caches. */
  lemma RemoveFileStep<Ref>(st: Store, w: World<Ref>, n: Ref, name: Name)
    requires Inv(st, w) && n in w && w[n].state.Whole? && ValidName(name) && name in w[n].files
    ensures var w' := ClearUp(w[n := w[n].(files := w[n].files - {name})], n);
            forall allow :: Performed(st, w, w', n, Remove(name, allow), Done)
  {
    hide Inv, Edited, Abs, Marked, ClearUp;
    RemovedFile(st, w, n, name);
    AbsWhole(st, w, n);
  }

  lemma RemovedFile<Ref>(st: Store, w: World<Ref>, n: Ref, name: Name)
    requires Inv(st, w) && n in w && w[n].state.Whole?
    ensures var f := w[n].files - {name};
            var w' := ClearUp(w[n := w[n].(files := f)], n);
            Edited(st, w, w', n) && Abs(st, w', n) == Abs(st, w, n).(files := f) && Marked(w, w', n, LOAD)
  {
    hide Marked, ClearUp;
    assert DownOk(w, n);
    var f := w[n].files - {name};
    SetFilesKeeps(st, w, n, f);
    var w1 := w[n := w[n].(files := f)];
    UpdateThenClear(st, w, w1, n);
    ClearUpLinks(w1, n);
    FilesStep(st, w, ClearUp(w1, n), n, f);
  }

  lemma ClearUpLinks<Ref>(w: World<Ref>, n: Ref)
    requires n in w
    ensures forall m :: m in w ==> m in ClearUp(w, n) && SameLinks(w[m], ClearUp(w, n)[m])
  {
    hide ClearUp;
    ClearUpTables(w, n);
  }

  lemma RemoveDirStep<Ref>(st: Store, w: World<Ref>, n: Ref, name: Name)
    requires Inv(st, w) && n in w && w[n].state.Whole? && ValidName(name) && name in w[n].subdirs
    ensures w[n].subdirs[name] in w && w[n].subdirs[name] != n && n in WithoutChild(w, n, name)
    ensures forall allow :: Performed(st, w, ClearUp(WithoutChild(w, n, name), n), n, Remove(name, allow), Done)
  {
    WithoutChildKeeps(st, w, n, name);
    TouchedByRemoval(w, n, name);
    hide *;
    var w1 := WithoutChild(w, n, name);
    UpdateThenClear(st, w, w1, n);
    RemovedLinks(w, n, name);
    RemovedDir(st, w, ClearUp(w1, n), n, name);
  }

  lemma RemovedLinks<Ref>(w: World<Ref>, n: Ref, name: Name)
    requires n in w && name in w[n].subdirs && w[n].subdirs[name] in w && w[n].subdirs[name] != n
    ensures n in WithoutChild(w, n, name) && LinksAt(w, ClearUp(WithoutChild(w, n, name), n), n)
  {
    hide ClearUp;
    ClearUpLinks(WithoutChild(w, n, name), n);
  }

  lemma TouchedByRemoval<Ref>(w: World<Ref>, n: Ref, name: Name)
    requires n in w && name in w[n].subdirs && w[n].subdirs[name] in w && w[n].subdirs[name] != n
    ensures TouchedAt(w, WithoutChild(w, n, name), n) && n in WithoutChild(w, n, name)
    ensures WithoutChild(w, n, name)[n] == w[n].(subdirs := w[n].subdirs - {name})
  {
  }

  lemma RemovedDir<Ref>(st: Store, w: World<Ref>, w': World<Ref>, n: Ref, name: Name)
    requires Edited(st, w, w', n) && w[n].state.Whole? && ValidName(name) && name in w[n].subdirs
    requires w'[n] == w[n].(subdirs := w[n].subdirs - {name}, contents := None) && LinksAt(w, w', n)
    ensures forall allow :: Performed(st, w, w', n, Remove(name, allow), Done)
  {
    hide Marked;
    assert DownOk(w, n);
    AbsWhole(st, w, n);
    RemovalEdit(st, w, w', n, name);
    MarkedDrop(w, w', n, name);
  }

  /** Creating a subdirectory: the caches are dropped first, then the child is linked in. */
  lemma AddDirStep<Ref>(st: Store, w: World<Ref>, n: Ref, name: Name, c: Ref, meta: Option<Checksum>)
    requires Inv(st, w) && n in w && w[n].state.Whole? && name !in w[n].subdirs && name !in w[n].files && c !in w
    ensures n in ClearUp(w, n) && ClearUp(w, n)[n] == w[n].(contents := None)
    ensures var w' := WithChild(ClearUp(w, n), n, name, c, meta);
            && Edited(st, w, w', n)
            && Abs(st, w', n) == Abs(st, w, n).(subdirs := Abs(st, w, n).subdirs[name := EMPTY_TREE.(meta := meta)])
            && Marked(w, w', n, LOAD.(add := Some(name)))
  {
    AddedLinks(w, n, name, c, meta);
    AddDirTree(st, w, n, name, c, meta);
    hide *;
    MarkedAdd(w, WithChild(ClearUp(w, n), n, name, c, meta), n, name, c) by { InvShape(st, w); }
  }

  lemma InvShape<Ref>(st: Store, w: World<Ref>)
    requires Inv(st, w)
    ensures Shape(w)
  {
  }

  lemma AddedLinks<Ref>(w: World<Ref>, n: Ref, name: Name, c: Ref, meta: Option<Checksum>)
    requires n in w && w[n].state.Whole? && c !in w
    ensures n in ClearUp(w, n)
    ensures var w' := WithChild(ClearUp(w, n), n, name, c, meta);
            && LinksAt(w, w', n) && n in w' && w'[n].state.Whole? && w'[n].subdirs == w[n].subdirs[name := c]
            && c in w' && w'[c].state.Whole? && w'[c].subdirs == map[]
  {
    hide ClearUp;
    ClearUpLinks(w, n);
    ClearUpTables(w, n);
  }

  lemma AddDirTree<Ref>(st: Store, w: World<Ref>, n: Ref, name: Name, c: Ref, meta: Option<Checksum>)
    requires Inv(st, w) && n in w && w[n].state.Whole? && name !in w[n].subdirs && name !in w[n].files && c !in w
    ensures n in ClearUp(w, n) && ClearUp(w, n)[n] == w[n].(contents := None)
    ensures var w' := WithChild(ClearUp(w, n), n, name, c, meta);
            && Edited(st, w, w', n)
            && Abs(st, w', n) == Abs(st, w, n).(subdirs := Abs(st, w, n).subdirs[name := EMPTY_TREE.(meta := meta)])
  {
    var w1 := ClearUp(w, n);
    ClearUpRestores(st, w, n);
    WithChildKeeps(st, w1, n, name, c, meta);
    var w' := WithChild(w1, n, name, c, meta);
    ClearUpKeepsTables(st, w, n);
    EditedByTables(st, w, w', n);
    AdditionEdit(st, w, w', n, name, c);
    NewChildIsEmpty(st, w', c, meta);
  }

  lemma EnsureDirStep<Ref>(st: Store, w: World<Ref>, n: Ref, name: Name, c: Ref)
    requires Inv(st, w) && n in w && w[n].state.Whole? && c !in w
    requires ValidName(name) && name !in w[n].subdirs && name !in w[n].files
    ensures n in ClearUp(w, n)
    ensures Performed(st, w, WithChild(ClearUp(w, n), n, name, c, None), n, EnsureDir(name), FoundDir)
  {
    hide Inv, Edited, Abs, ClearUp, WithChild, Marked;
    AddDirStep(st, w, n, name, c, None);
    AbsWhole(st, w, n);
  }

  /** set_metadata_checksum on a loaded or a lazy node. */
  lemma SetMetaStep<Ref>(st: Store, w: World<Ref>, n: Ref, meta: Checksum)
    requires Inv(st, w) && n in w
    ensures Performed(st, w, WithMeta(w, n, meta), n, SetMetadata(meta), Done)
  {
    hide Inv, Edited, Abs, WithMeta, Marked;
    SetMetaTree(st, w, n, meta);
    InvShape(st, w);
    TablesLinks(w, WithMeta(w, n, meta), n);
    MarkedNothing(w, WithMeta(w, n, meta), n, NO_EFFECT);
  }

  lemma TablesLinks<Ref>(w: World<Ref>, w': World<Ref>, n: Ref)
    requires SameExceptAt(w, w', n)
    ensures LinksAt(w, w', n)
  {
  }

  lemma SetMetaTree<Ref>(st: Store, w: World<Ref>, n: Ref, meta: Checksum)
    requires Inv(st, w) && n in w
    ensures var w' := WithMeta(w, n, meta);
            && SameExceptAt(w, w', n) && n in w' && SameLinks(w[n], w'[n])
            && Edited(st, w, w', n) && Abs(st, w', n) == Abs(st, w, n).(meta := Some(meta))
  {
    var w' := WithMeta(w, n, meta);
    WithMetaKeeps(st, w, n, meta);
    forall k | k in w[n].subdirs
      ensures w[n].subdirs[k] in w && w'[w[n].subdirs[k]] == w[w[n].subdirs[k]]
    {
      ChildIsBelow(w, n, k);
      assert DownOk(w, n);
      if Above(w, w[n].subdirs[k], n) { AboveDepth(w, w[n].subdirs[k], n); }
    }
    CacheCarries(st, w, w', n);
    TablesFromCaches(st, w, w', n);
    EditedByTables(st, w, w', n);
    if w[n].state.Whole? {
      MetaEdit(st, w, w', n, meta);
    }
  }

  lemma TablesFromCaches<Ref>(st: Store, w: World<Ref>, w': World<Ref>, n: Ref)
    requires Trimmed(w, w', n) && CachesOkBut(st, w', n)
    ensures SameExceptAt(w, w', n)
  {
    forall m | m in w && m != n
      ensures SameTables(w[m], w'[m])
    {
      assert CacheOk(st, w', m);
    }
  }

  lemma MetaEdit<Ref>(st: Store, w: World<Ref>, w': World<Ref>, n: Ref, meta: Checksum)
    requires Edited(st, w, w', n) && w[n].state.Whole? && w'[n] == w[n].(meta := Some(meta))
    ensures Abs(st, w', n) == Abs(st, w, n).(meta := Some(meta))
  {
    AbsWhole(st, w, n);
    AbsWhole(st, w', n);
    forall k | k in w[n].subdirs
      ensures Abs(st, w', n).subdirs[k] == Abs(st, w, n).subdirs[k]
    {
      ChildKept(st, w, w', n, k);
    }
    TreesFromChildren(Abs(st, w, n).(meta := Some(meta)), Abs(st, w', n), None);
  }

  // --- fill_empty_from_dirtree --------------------------------------------------------

  /** An empty node made to name a dirtree object without loading it. */
  ghost function Filled<Ref>(w: World<Ref>, n: Ref, repo: Repo, c: Checksum, meta: Checksum): World<Ref>
    requires n in w
  {
    var w1 := WithMeta(w[n := w[n].(state := Lazy(repo))], n, meta);
    if n !in w1 || w1[n].contents == Some(c) then w1 else ClearUp(w1, n)[n := w1[n].(contents := Some(c))]
  }

  lemma LazyFlagKeeps<Ref>(st: Store, w: World<Ref>, n: Ref, repo: Repo)
    requires Inv(st, w) && n in w
    ensures Shape(w[n := w[n].(state := Lazy(repo))]) && CachesOkBut(st, w[n := w[n].(state := Lazy(repo))], n)
  {
    var w' := w[n := w[n].(state := Lazy(repo))];
    forall m | m in w
      ensures w'[m].files.Keys !! w'[m].subdirs.Keys
      ensures m != n ==> CacheOk(st, w', m)
    {
      assert DownOk(w, m);
      if m != n { CacheCarries(st, w, w', m); }
    }
    ShapeCarries(w, w');
  }

  lemma SetContentsKeeps<Ref>(st: Store, w: World<Ref>, n: Ref, c: Checksum)
    requires Shape(w) && n in w && CachesOkBut(st, w, n)
    ensures var w' := ClearUp(w, n)[n := w[n].(contents := Some(c))];
            Trimmed(w, w', n) && Shape(w') && CachesOkBut(st, w', n)
  {
    ClearUpIsCleared(st, w, n);
    ClearUpTables(w, n);
    ClearedKeeps(st, w, n);
    var w1 := Cleared(w, n);
    var w' := w1[n := w[n].(contents := Some(c))];
    forall m | m in w
      ensures w'[m].files.Keys !! w'[m].subdirs.Keys
      ensures m != n ==> CacheOk(st, w', m)
    {
      assert DownOk(w1, m);
      if m != n { ParentOfClearedIsClear(st, w, n, m); CacheCarries(st, w1, w', m); }
    }
    ShapeCarries(w1, w');
  }

  lemma ParentOfClearedIsClear<Ref>(st: Store, w: World<Ref>, n: Ref, m: Ref)
    requires Shape(w) && n in w && m in w
    ensures forall k :: k in w[m].subdirs && w[m].subdirs[k] == n ==> Cleared(w, n)[m].contents == None
  {
    forall k | k in w[m].subdirs && w[m].subdirs[k] == n
      ensures Above(w, m, n)
    {
      assert DownOk(w, m) && UpOk(w, n);
      assert Above(w, m, m);
    }
  }

  lemma FilledKeeps<Ref>(st: Store, w: World<Ref>, n: Ref, repo: Repo, c: Checksum, meta: Checksum)
    requires Inv(st, w) && n in w
    ensures var w' := Filled(w, n, repo, c, meta);
            && Trimmed(w, w', n) && Shape(w') && CachesOkBut(st, w', n)
            && w'[n] == w[n].(state := Lazy(repo), contents := Some(c), meta := Some(meta))
  {
    var w1 := w[n := w[n].(state := Lazy(repo))];
    LazyFlagKeeps(st, w, n, repo);
    WithMetaKeeps(st, w1, n, meta);
    TrimmedTwice(w, w1, WithMeta(w1, n, meta), n);
    if w1[n].contents != Some(c) {
      SetContentsKeeps(st, WithMeta(w1, n, meta), n, c);
      TrimmedTwice(w, WithMeta(w1, n, meta), Filled(w, n, repo, c, meta), n);
    }
  }

  lemma TrimmedTwice<Ref>(w: World<Ref>, w1: World<Ref>, w2: World<Ref>, n: Ref)
    requires Trimmed(w, w1, n) && Trimmed(w1, w2, n)
    ensures Trimmed(w, w2, n)
  {
  }

  ghost predicate BecomesLazy<Ref>(w: World<Ref>, w': World<Ref>, n: Ref) {
    n in w && n in w' && w'[n].state.Lazy? && w[n].subdirs == w'[n].subdirs == map[]
  }

  lemma FillStep<Ref>(st: Store, w: World<Ref>, n: Ref, repo: Repo, c: Checksum, meta: Checksum)
    requires Inv(st, w) && n in w && w[n].files == map[] && w[n].subdirs == map[]
    requires st.Serves(repo) && c in st.objects
    ensures n in Filled(w, n, repo, c, meta) && Edited(st, w, Filled(w, n, repo, c, meta), n)
    ensures Abs(st, Filled(w, n, repo, c, meta), n) == Resolve(st, c, meta)
    ensures SameExceptAt(w, Filled(w, n, repo, c, meta), n) && BecomesLazy(w, Filled(w, n, repo, c, meta), n)
  {
    var w' := Filled(w, n, repo, c, meta);
    FilledKeeps(st, w, n, repo, c, meta);
    TablesFromCaches(st, w, w', n);
    EditedByTables(st, w, w', n);
  }

  /** A lazy node moved to another repository, its contents kept. */
  lemma RebaseStep<Ref>(st: Store, w: World<Ref>, n: Ref, repo: Repo, meta: Checksum)
    requires Inv(st, w) && n in w && w[n].state.Lazy? && st.Serves(repo)
    ensures var w' := WithMeta(w[n := w[n].(state := Lazy(repo))], n, meta);
            && n in w' && Edited(st, w, w', n) && Abs(st, w', n) == Abs(st, w, n).(meta := Some(meta))
            && SameExceptAt(w, w', n) && BecomesLazy(w, w', n)
  {
    var w1 := w[n := w[n].(state := Lazy(repo))];
    LazyFlagKeeps(st, w, n, repo);
    var w' := WithMeta(w1, n, meta);
    WithMetaKeeps(st, w1, n, meta);
    assert CacheOk(st, w, n);
    assert CacheOk(st, w', n);
    TablesFromCaches(st, w, w', n);
    EditedByTables(st, w, w', n);
  }

  /** The guard of fill_empty_from_dirtree, on the fields it looks at. */
  ghost predicate FillsFrom<Ref>(node: Node<Ref>, c: Checksum) {
    if node.state.Lazy? then node.contents in {Some(c), Some(EMPTY_TREE_CSUM)} || c == EMPTY_TREE_CSUM
    else node.files == map[] && node.subdirs == map[]
  }

  lemma OverlayCases(a: Tree, b: Tree)
    ensures IsEmpty(a) ==> Overlay(a, b) == b
    ensures IsEmpty(b) ==> Overlay(a, b) == a.(meta := b.meta)
    ensures a.files == b.files && a.subdirs == b.subdirs ==> Overlay(a, b) == b
  {
    assert IsEmpty(a) ==> a.files + b.files == b.files && a.subdirs + b.subdirs == b.subdirs;
    assert IsEmpty(b) ==> a.files + b.files == a.files && a.subdirs + b.subdirs == a.subdirs;
  }

  lemma ResolveEmpty(st: Store, meta: Checksum)
    requires st.Valid() && EMPTY_TREE_CSUM in st.objects
    ensures IsEmpty(Resolve(st, EMPTY_TREE_CSUM, meta))
  {
    assert st.ObjectOk(EMPTY_TREE_CSUM);
    assert Resolve(st, EMPTY_TREE_CSUM, meta).subdirs == map[];
  }

  /** What a successful fill leaves: the merge of the old contents with the given tree. */
  ghost predicate FilledIn<Ref>(st: Store, w: World<Ref>, w': World<Ref>, n: Ref, c: Checksum, meta: Checksum)
    requires st.Valid() && c in st.objects
  {
    && Edited(st, w, w', n)
    && var t, given := Abs(st, w, n), Resolve(st, c, meta);
    Mergeable(t, given) && Abs(st, w', n) == Overlay(t, given) && Marked(w, w', n, UNLOAD)
  }

  lemma UnloadedMarks<Ref>(st: Store, w: World<Ref>, w': World<Ref>, n: Ref)
    requires Inv(st, w) && SameExceptAt(w, w', n) && BecomesLazy(w, w', n)
    ensures Marked(w, w', n, UNLOAD)
  {
    hide Inv, Marked;
    InvShape(st, w);
    TablesLinks(w, w', n);
    MarkedUnload(w, w', n);
  }

  lemma FilledByNaming<Ref>(st: Store, w: World<Ref>, n: Ref, repo: Repo, c: Checksum, meta: Checksum)
    requires Inv(st, w) && n in w && st.Serves(repo) && c in st.objects
    requires if w[n].state.Lazy? then w[n].contents == Some(c) || w[n].contents == Some(EMPTY_TREE_CSUM)
             else w[n].files == map[] && w[n].subdirs == map[]
    ensures FilledIn(st, w, Filled(w, n, repo, c, meta), n, c, meta)
  {
    hide Filled, Marked, Edited;
    assert CacheOk(st, w, n);
    FillStep(st, w, n, repo, c, meta);
    UnloadedMarks(st, w, Filled(w, n, repo, c, meta), n);
    var t, given := Abs(st, w, n), Resolve(st, c, meta);
    if w[n].state.Lazy? {
      if w[n].contents == Some(EMPTY_TREE_CSUM) { ResolveEmpty(st, w[n].meta.value); }
    } else {
      assert t.subdirs == map[];
    }
    OverlayCases(t, given);
  }

  lemma FilledByNothing<Ref>(st: Store, w: World<Ref>, n: Ref, repo: Repo, meta: Checksum)
    requires Inv(st, w) && n in w && st.Serves(repo) && EMPTY_TREE_CSUM in st.objects && w[n].state.Lazy?
    ensures FilledIn(st, w, WithMeta(w[n := w[n].(state := Lazy(repo))], n, meta), n, EMPTY_TREE_CSUM, meta)
  {
    hide WithMeta, Marked, Edited;
    RebaseStep(st, w, n, repo, meta);
    UnloadedMarks(st, w, WithMeta(w[n := w[n].(state := Lazy(repo))], n, meta), n);
    ResolveEmpty(st, meta);
    OverlayCases(Abs(st, w, n), Resolve(st, EMPTY_TREE_CSUM, meta));
  }

  /**
   Exactly when filling succeeds: on an empty directory always; on any other only while it is
   lazy, and then whenever merging needs no new object.
   */
  lemma FillsIff<Ref>(st: Store, w: World<Ref>, n: Ref, c: Checksum, meta: Checksum)
    requires Inv(st, w) && n in w && c in st.objects
    ensures FillsFrom(w[n], c) <==>
            || IsEmpty(Abs(st, w, n))
            || (w[n].state.Lazy? && Mergeable(Abs(st, w, n), Resolve(st, c, meta)))
  {
    assert CacheOk(st, w, n);
    if w[n].state.Lazy? {
      MergeableIff(st, w[n].contents.value, w[n].meta.value, c, meta);
    } else {
      AbsWhole(st, w, n);
    }
  }

  lemma EmptyIff(st: Store, c: Checksum, meta: Checksum)
    requires st.Valid() && c in st.objects
    ensures IsEmpty(Resolve(st, c, meta)) <==> c == EMPTY_TREE_CSUM
  {
    if c == EMPTY_TREE_CSUM {
      ResolveEmpty(st, meta);
    } else {
      ResolveHash(st, c, meta);
      assert IsEmpty(Resolve(st, c, meta)) ==> ObjectOf(st, Resolve(st, c, meta)) == EMPTY_DIRTREE;
    }
  }

  /** For stored trees, comparing checksums decides whether one is empty or both are equal. */
  lemma MergeableIff(st: Store, b: Checksum, m: Checksum, c: Checksum, meta: Checksum)
    requires st.Valid() && b in st.objects && c in st.objects
    ensures Mergeable(Resolve(st, b, m), Resolve(st, c, meta)) <==> b == c || EMPTY_TREE_CSUM in {b, c}
    ensures IsEmpty(Resolve(st, b, m)) <==> b == EMPTY_TREE_CSUM
  {
    EmptyIff(st, b, m);
    EmptyIff(st, c, meta);
    var t, given := Resolve(st, b, m), Resolve(st, c, meta);
    if t.files == given.files && t.subdirs == given.subdirs {
      ResolveHash(st, b, m);
      ResolveHash(st, c, meta);
      assert ObjectOf(st, t) == ObjectOf(st, given);
    }
  }

  // --- walk ---------------------------------------------------------------------------

  /** What a walk from `n` along `path` reports, and that it changes no tree. */
  ghost predicate Walked<Ref>(st: Store, w: World<Ref>, w': World<Ref>, n: Ref, path: Path, reply: Reply, out: Option<Ref>) {
    && Unedited(st, w, w') && n in w
    && reply in {FoundDir, NoEntry, LoadFailed}
    && (reply == FoundDir ==> out.Some? && At(w', n, path) == out)
    && (reply == NoEntry ==> GetAt(Abs(st, w, n), path) == None)
    && (At(w, n, path).Some? ==> reply == FoundDir && out == At(w, n, path))
    && (reply != LoadFailed ==> WalkMarked(st, w, w', n, path))
  }

  /** A walk loads what it passes, and not where it ends. */
  ghost predicate WalkMarkedFrom<Ref>(w: World<Ref>, w': World<Ref>, t: Tree, r: Ref, p: Path, path: Path) {
    forall q :: LazyAt(w', r, q) <==> LazyAt(w, r, q) && !OnWay(t, p, path, q)
  }

  ghost predicate WalkMarked<Ref>(st: Store, w: World<Ref>, w': World<Ref>, n: Ref, path: Path)
    requires Inv(st, w) && n in w
  {
    forall r, p :: r in w && At(w, r, p) == Some(n) ==> WalkMarkedFrom(w, w', Abs(st, w, n), r, p, path)
  }

  lemma OnWayStops(t: Tree, p: Path, path: Path, q: Path)
    requires path != [] && path[0] !in t.subdirs
    ensures OnWay(t, p, path, q) <==> q == p
  {
    assert p + path[..0] == p && GetAt(t, path[..0]) == Some(t);
  }

  lemma OnWayOn(t: Tree, p: Path, path: Path, q: Path)
    requires path != [] && path[0] in t.subdirs
    ensures OnWay(t, p, path, q) <==> q == p || OnWay(t.subdirs[path[0]], p + [path[0]], path[1..], q)
  {
    assert p + path[..0] == p && GetAt(t, path[..0]) == Some(t);
    var c, rest := t.subdirs[path[0]], path[1..];
    forall i | 0 <= i < |rest|
      ensures p + path[..i + 1] == p + [path[0]] + rest[..i] && GetAt(t, path[..i + 1]) == GetAt(c, rest[..i])
    {
      assert path[..i + 1] == [path[0]] + rest[..i] && path[..i + 1][1..] == rest[..i];
    }
    if OnWay(t, p, path, q) && q != p {
      var i :| 0 <= i < |path| && q == p + path[..i] && GetAt(t, path[..i]).Some?;
      assert i > 0 && q == p + [path[0]] + rest[..i - 1];
    }
  }

  lemma WalkMarkedStop<Ref>(st: Store, w: World<Ref>, w1: World<Ref>, n: Ref, path: Path)
    requires Inv(st, w) && n in w && Marked(w, w1, n, LOAD) && path != [] && path[0] !in Abs(st, w, n).subdirs
    ensures WalkMarked(st, w, w1, n, path)
  {
    forall r, p | r in w && At(w, r, p) == Some(n)
      ensures WalkMarkedFrom(w, w1, Abs(st, w, n), r, p, path)
    {
      hide LazyAt, OnWay, Inv, Abs;
      assert MarkedFrom(w, w1, LOAD, r, p);
      forall q
        ensures LazyAt(w1, r, q) <==> LazyAt(w, r, q) && !OnWay(Abs(st, w, n), p, path, q)
      {
        OnWayStops(Abs(st, w, n), p, path, q);
      }
    }
  }

  lemma WalkMarkedOn<Ref>(st: Store, w: World<Ref>, w1: World<Ref>, w2: World<Ref>, n: Ref, path: Path)
    requires Unedited(st, w, w1) && n in w && Marked(w, w1, n, LOAD) && path != [] && path[0] in w1[n].subdirs
    requires w1[n].subdirs[path[0]] in w1 && WalkMarked(st, w1, w2, w1[n].subdirs[path[0]], path[1..])
    ensures WalkMarked(st, w, w2, n, path)
  {
    hide MarkedFrom, WalkMarkedFrom, Inv, Abs, Unedited, At, Grown;
    UneditedFacts(st, w, w1);
    var t, c := Abs(st, w, n), w1[n].subdirs[path[0]];
    AbsChild(st, w1, n, path[0]);
    forall r, p | r in w && At(w, r, p) == Some(n)
      ensures WalkMarkedFrom(w, w2, t, r, p, path)
    {
      AtGrows(w, w1, r, p);
      AtChild(w1, r, p, n, path[0]);
      WalkMarkedFurther(w, w1, w2, t, r, p, path);
    }
  }

  lemma AtChild<Ref>(w: World<Ref>, r: Ref, p: Path, n: Ref, k: Name)
    requires At(w, r, p) == Some(n) && n in w && k in w[n].subdirs && w[n].subdirs[k] in w
    ensures r in w && At(w, r, p + [k]) == Some(w[n].subdirs[k])
  {
    AtDeep(w, r, p, [k]);
    assert [k][1..] == [];
  }

  lemma WalkMarkedFurther<Ref>(w: World<Ref>, w1: World<Ref>, w2: World<Ref>, t: Tree, r: Ref, p: Path, path: Path)
    requires path != [] && path[0] in t.subdirs && MarkedFrom(w, w1, LOAD, r, p)
    requires WalkMarkedFrom(w1, w2, t.subdirs[path[0]], r, p + [path[0]], path[1..])
    ensures WalkMarkedFrom(w, w2, t, r, p, path)
  {
    hide LazyAt, OnWay;
    forall q
      ensures LazyAt(w2, r, q) <==> LazyAt(w, r, q) && !OnWay(t, p, path, q)
    {
      OnWayOn(t, p, path, q);
    }
  }

  /** Loading the directories on the way does not load the one at the end. */
  lemma LazyOn<Ref>(st: Store, w: World<Ref>, w1: World<Ref>, n: Ref, path: Path)
    requires Inv(st, w) && Inv(st, w1) && n in w && n in w1 && path != [] && path[0] in w1[n].subdirs
    requires if w[n].state.Whole? then w1 == w
             else w1[n].subdirs[path[0]] in w1 && w1[w1[n].subdirs[path[0]]].state.Lazy?
    ensures LazyAt(w, n, path) <==> LazyAt(w1, w1[n].subdirs[path[0]], path[1..])
  {
    if w[n].state.Lazy? {
      assert CacheOk(st, w, n) && CacheOk(st, w1, w1[n].subdirs[path[0]]);
      assert At(w, n, path) == None;
    }
  }

  lemma WalkedHere<Ref>(st: Store, w: World<Ref>, n: Ref)
    requires Inv(st, w) && n in w
    ensures Walked(st, w, w, n, [], FoundDir, Some(n))
  {
  }

  lemma WalkedIntoNothing<Ref>(st: Store, w: World<Ref>, w1: World<Ref>, n: Ref, path: Path)
    requires Unedited(st, w, w1) && n in w && w1[n].state.Whole? && path != [] && path[0] !in w1[n].subdirs
    requires Marked(w, w1, n, LOAD)
    ensures Walked(st, w, w1, n, path, NoEntry, None)
  {
    hide Marked, WalkMarked;
    AbsWhole(st, w1, n);
    WalkMarkedStop(st, w, w1, n, path);
  }

  lemma WalkedStuck<Ref>(st: Store, w: World<Ref>, n: Ref, path: Path)
    requires Inv(st, w) && n in w && w[n].state.Lazy? && path != []
    ensures Walked(st, w, w, n, path, LoadFailed, None)
  {
    assert CacheOk(st, w, n);
  }

  lemma WalkedOn<Ref>(st: Store, w: World<Ref>, w1: World<Ref>, w2: World<Ref>, n: Ref, path: Path, reply: Reply, out: Option<Ref>)
    requires Unedited(st, w, w1) && n in w && path != [] && path[0] in w1[n].subdirs && Marked(w, w1, n, LOAD)
    requires Walked(st, w1, w2, w1[n].subdirs[path[0]], path[1..], reply, out)
    ensures Walked(st, w, w2, n, path, reply, out)
  {
    hide Marked, WalkMarked;
    if reply != LoadFailed { WalkMarkedOn(st, w, w1, w2, n, path); }
    UneditedTwice(st, w, w1, w2);
    AbsChild(st, w1, n, path[0]);
    if At(w, n, path).Some? { AtGrows(w, w1, n, path); }
  }

  // --- ensure_parent_dirs -------------------------------------------------------------

  lemma EditedThen<Ref>(st: Store, w: World<Ref>, w1: World<Ref>, w2: World<Ref>, n: Ref)
    requires Edited(st, w, w1, n) && Unedited(st, w1, w2)
    ensures Edited(st, w, w2, n)
  {
    forall r | r in w
      ensures EditedIn(st, w, w2, n, r)
    {
      assert EditedIn(st, w, w1, n, r);
    }
  }

  /**
   The state of the loop after `i` directories: `s` has been reached, creating what remains
   leads to the same end as at the start, and until the first directory is created no tree
   has changed; once one has been, `s` is a new empty directory.
   */
  ghost predicate Descended<Ref>(st: Store, w0: World<Ref>, w: World<Ref>, n: Ref, dirs: Path, i: nat, meta: Checksum, s: Ref, created: bool) {
    && Within(st, w0, w, n) && i <= |dirs|
    && At(w, n, dirs[..i]) == Some(s) && s in w && w[s].state.Whole?
    && MakeDirs(Abs(st, w, n), dirs, meta) == MakeDirs(Abs(st, w0, n), dirs, meta)
    && (!created ==> Unedited(st, w0, w))
    && (created ==> w[s].files == map[] && w[s].subdirs == map[])
    && DigMarked(w0, w, n, dirs, i)
  }

  /** `q` is one of the first directories of the path, from `p` on. */
  ghost predicate Prefixed(p: Path, dirs: Path, i: nat, q: Path)
    requires i <= |dirs|
  {
    exists j :: 0 <= j <= i && q == p + dirs[..j]
  }

  ghost predicate DigMarkedFrom<Ref>(w0: World<Ref>, w: World<Ref>, r: Ref, p: Path, dirs: Path, i: nat)
    requires i <= |dirs|
  {
    forall q :: LazyAt(w, r, q) <==> LazyAt(w0, r, q) && !Prefixed(p, dirs, i, q)
  }

  /** The loop has loaded, or made, each directory it came through. */
  ghost predicate DigMarked<Ref>(w0: World<Ref>, w: World<Ref>, n: Ref, dirs: Path, i: nat)
    requires i <= |dirs|
  {
    forall r, p :: r in w0 && At(w0, r, p) == Some(n) ==> DigMarkedFrom(w0, w, r, p, dirs, i)
  }

  lemma DigMarkedStart<Ref>(w: World<Ref>, n: Ref, dirs: Path)
    requires n in w && w[n].state.Whole?
    ensures DigMarked(w, w, n, dirs, 0)
  {
    forall r, p | r in w && At(w, r, p) == Some(n)
      ensures DigMarkedFrom(w, w, r, p, dirs, 0)
    {
      assert p + dirs[..0] == p;
    }
  }

  lemma PrefixedMore(p: Path, dirs: Path, i: nat, q: Path)
    requires i < |dirs|
    ensures Prefixed(p, dirs, i + 1, q) <==> Prefixed(p, dirs, i, q) || q == p + dirs[..i + 1]
  {
  }

  /** One directory further, by loading it or by making it. */
  lemma DigMarkedOn<Ref>(w0: World<Ref>, w: World<Ref>, w1: World<Ref>, n: Ref, dirs: Path, i: nat, s: Ref, c: Ref, made: bool)
    requires i < |dirs| && n in w0 && Grown(w0, w) && DigMarked(w0, w, n, dirs, i) && At(w, n, dirs[..i]) == Some(s) && s in w
    requires made ==> Marked(w, w1, s, LOAD.(add := Some(dirs[i])))
    requires !made ==> dirs[i] in w[s].subdirs && w[s].subdirs[dirs[i]] == c && c in w && Marked(w, w1, c, LOAD)
    ensures DigMarked(w0, w1, n, dirs, i + 1)
  {
    forall r, p | r in w0 && At(w0, r, p) == Some(n)
      ensures DigMarkedFrom(w0, w1, r, p, dirs, i + 1)
    {
      hide DigMarkedFrom, MarkedFrom;
      AtGrows(w0, w, r, p);
      AtDeep(w, r, p, dirs[..i]);
      var here := p + dirs[..i];
      assert here + [dirs[i]] == p + dirs[..i + 1];
      assert r in w;
      if made {
        DigMarkedFurther(w0, w, w1, r, p, dirs, i, here, LOAD.(add := Some(dirs[i])));
      } else {
        AtChild(w, r, here, s, dirs[i]);
        DigMarkedFurther(w0, w, w1, r, p, dirs, i, here + [dirs[i]], LOAD);
      }
    }
  }

  lemma DigMarkedFurther<Ref>(w0: World<Ref>, w: World<Ref>, w1: World<Ref>, r: Ref, p: Path, dirs: Path, i: nat, at: Path, e: Effect)
    requires i < |dirs| && DigMarkedFrom(w0, w, r, p, dirs, i) && MarkedFrom(w, w1, e, r, at)
    requires if e == LOAD then at == p + dirs[..i + 1] else at == p + dirs[..i] && e == LOAD.(add := Some(dirs[i]))
    ensures DigMarkedFrom(w0, w1, r, p, dirs, i + 1)
  {
    hide LazyAt;
    assert p + dirs[..i] + [dirs[i]] == p + dirs[..i + 1];
    forall q
      ensures LazyAt(w1, r, q) <==> LazyAt(w0, r, q) && !Prefixed(p, dirs, i + 1, q)
    {
      PrefixedMore(p, dirs, i, q);
    }
  }

  lemma DescendedFrom<Ref>(st: Store, w: World<Ref>, n: Ref, dirs: Path, meta: Checksum)
    requires Inv(st, w) && n in w && w[n].state.Whole?
    ensures Descended(st, w, w, n, dirs, 0, meta, n, false)
  {
    WithinByLoad(st, w, w, n);
    DigMarkedStart(w, n, dirs);
  }

  lemma AtNext<Ref>(w: World<Ref>, n: Ref, dirs: Path, i: nat, s: Ref)
    requires i < |dirs| && At(w, n, dirs[..i]) == Some(s) && s in w && dirs[i] in w[s].subdirs && w[s].subdirs[dirs[i]] in w
    ensures At(w, n, dirs[..i + 1]) == Some(w[s].subdirs[dirs[i]])
  {
    assert dirs[..i + 1] == dirs[..i] + [dirs[i]];
    AtDeep(w, n, dirs[..i], [dirs[i]]);
    assert [dirs[i]][1..] == [];
  }

  lemma DescendedOn<Ref>(st: Store, w0: World<Ref>, w: World<Ref>, w1: World<Ref>, n: Ref, dirs: Path, i: nat, meta: Checksum, s: Ref)
    requires Descended(st, w0, w, n, dirs, i, meta, s, false) && Unedited(st, w, w1)
    requires i < |dirs| && dirs[i] in w[s].subdirs && w[s].subdirs[dirs[i]] in w1 && w1[w[s].subdirs[dirs[i]]].state.Whole?
    requires w[s].subdirs[dirs[i]] in w && Marked(w, w1, w[s].subdirs[dirs[i]], LOAD)
    ensures Descended(st, w0, w1, n, dirs, i + 1, meta, w[s].subdirs[dirs[i]], false)
  {
    hide Marked, DigMarked;
    DigMarkedOn(w0, w, w1, n, dirs, i, s, w[s].subdirs[dirs[i]], false);
    AtGrows(w, w1, n, dirs[..i]);
    AtNext(w1, n, dirs, i, s);
    UneditedTwice(st, w0, w, w1);
    WithinByLoad(st, w0, w1, n);
  }

  lemma WithChildGrows<Ref>(w: World<Ref>, n: Ref, name: Name, c: Ref, meta: Option<Checksum>)
    requires n in w && n in ClearUp(w, n) && c !in w && name !in w[n].subdirs
    ensures Grown(w, WithChild(ClearUp(w, n), n, name, c, meta))
  {
    hide ClearUp;
    ClearUpTables(w, n);
  }

  lemma DescendedCreating<Ref>(st: Store, w0: World<Ref>, w: World<Ref>, n: Ref, dirs: Path, i: nat, meta: Checksum, s: Ref, created: bool, c: Ref)
    requires Descended(st, w0, w, n, dirs, i, meta, s, created) && c !in w
    requires i < |dirs| && dirs[i] !in w[s].files && dirs[i] !in w[s].subdirs
    ensures s in ClearUp(w, s)
    ensures Descended(st, w0, WithChild(ClearUp(w, s), s, dirs[i], c, Some(meta)), n, dirs, i + 1, meta, c, true)
  {
    hide Inv, Edited, Grown, Within, Unedited, ClearUp, Abs, MakeDirs, Marked, DigMarked;
    DescendedFacts(st, w0, w, n, dirs, i, meta, s, created);
    AddDirStep(st, w, s, dirs[i], c, Some(meta));
    var w' := WithChild(ClearUp(w, s), s, dirs[i], c, Some(meta));
    WithChildGrows(w, s, dirs[i], c, Some(meta));
    WithinNode(st, w0, w, n);
    DigMarkedOn(w0, w, w', n, dirs, i, s, c, true);
    CreatingLeads(st, w, w', n, dirs, i, meta, s);
    WithinTwice(st, w0, w, w', n);
    AtGrows(w, w', n, dirs[..i]);
    AtNext(w', n, dirs, i, s);
  }

  lemma WithinNode<Ref>(st: Store, w: World<Ref>, w': World<Ref>, n: Ref)
    requires Within(st, w, w', n)
    ensures n in w && n in w' && Grown(w, w')
  {
  }

  lemma CreatingLeads<Ref>(st: Store, w: World<Ref>, w': World<Ref>, n: Ref, dirs: Path, i: nat, meta: Checksum, s: Ref)
    requires Edited(st, w, w', s) && Grown(w, w') && n in w && w[s].state.Whole?
    requires i < |dirs| && At(w, n, dirs[..i]) == Some(s)
    requires dirs[i] !in w[s].files && dirs[i] !in w[s].subdirs
    requires Abs(st, w', s) == Abs(st, w, s).(subdirs := Abs(st, w, s).subdirs[dirs[i] := EMPTY_TREE.(meta := Some(meta))])
    ensures Within(st, w, w', n) && MakeDirs(Abs(st, w', n), dirs, meta) == MakeDirs(Abs(st, w, n), dirs, meta)
  {
    WithinByEdit(st, w, w', n, dirs[..i], s);
    GetAtAbs(st, w, n, dirs[..i], s);
    AbsWhole(st, w, s);
    MakeDirsStep(Abs(st, w, n), dirs, i, meta);
  }

  lemma DescendedToFile<Ref>(st: Store, w0: World<Ref>, w: World<Ref>, n: Ref, dirs: Path, i: nat, meta: Checksum, s: Ref, created: bool)
    requires Descended(st, w0, w, n, dirs, i, meta, s, created)
    requires i < |dirs| && dirs[i] in w[s].files
    ensures Unedited(st, w0, w) && MakeDirs(Abs(st, w0, n), dirs, meta) == None
  {
    GetAtAbs(st, w, n, dirs[..i], s);
    AbsWhole(st, w, s);
    assert DownOk(w, s);
    MakeDirsBlocked(Abs(st, w, n), dirs, i, meta);
  }

  lemma DescendedToEnd<Ref>(st: Store, w0: World<Ref>, w: World<Ref>, n: Ref, dirs: Path, meta: Checksum, s: Ref, created: bool)
    requires Descended(st, w0, w, n, dirs, |dirs|, meta, s, created)
    ensures At(w, n, dirs) == Some(s) && Within(st, w0, w, n)
    ensures MakeDirs(Abs(st, w0, n), dirs, meta) == Some(Abs(st, w, n))
  {
    assert dirs[..|dirs|] == dirs;
    GetAtAbs(st, w, n, dirs, s);
    MakeDirsDone(Abs(st, w, n), dirs, meta);
  }

  /** Every directory of the path that is there in the end is loaded. */
  ghost predicate DirsMarkedFrom<Ref>(w: World<Ref>, w': World<Ref>, t: Tree, r: Ref, p: Path, dirs: Path) {
    forall q :: LazyAt(w', r, q) <==> LazyAt(w, r, q) && !Reached(t, p, dirs, q)
  }

  ghost predicate DirsMarked<Ref>(st: Store, w: World<Ref>, w': World<Ref>, n: Ref, dirs: Path)
    requires Inv(st, w') && n in w'
  {
    forall r, p :: r in w && At(w, r, p) == Some(n) ==> DirsMarkedFrom(w, w', Abs(st, w', n), r, p, dirs)
  }

  lemma {:induction false} PrefixThere(t: Tree, dirs: Path, i: nat, j: nat)
    requires j <= i <= |dirs| && GetAt(t, dirs[..i]).Some?
    ensures GetAt(t, dirs[..j]).Some?
    decreases |dirs|
  {
    if j > 0 {
      assert dirs[..i][1..] == dirs[1..][..i - 1] && dirs[..j][1..] == dirs[1..][..j - 1];
      PrefixThere(t.subdirs[dirs[0]], dirs[1..], i - 1, j - 1);
    }
  }

  /** The directories there are the first `i`, if the path breaks off behind them. */
  lemma ReachedIs(t: Tree, p: Path, dirs: Path, i: nat, q: Path)
    requires i <= |dirs| && GetAt(t, dirs[..i]).Some?
    requires i < |dirs| ==> GetAt(t, dirs[..i + 1]) == None
    ensures Reached(t, p, dirs, q) <==> Prefixed(p, dirs, i, q)
  {
    forall j | 0 <= j <= |dirs|
      ensures GetAt(t, dirs[..j]).Some? <==> j <= i
    {
      if j <= i { PrefixThere(t, dirs, i, j); } else if GetAt(t, dirs[..j]).Some? { PrefixThere(t, dirs, j, i + 1); }
    }
  }

  lemma DirsMarkedBy<Ref>(st: Store, w0: World<Ref>, w: World<Ref>, n: Ref, dirs: Path, i: nat)
    requires Inv(st, w) && n in w && i <= |dirs| && DigMarked(w0, w, n, dirs, i)
    requires GetAt(Abs(st, w, n), dirs[..i]).Some? && (i < |dirs| ==> GetAt(Abs(st, w, n), dirs[..i + 1]) == None)
    ensures DirsMarked(st, w0, w, n, dirs)
  {
    hide Inv, Abs, GetAt, At, LazyAt, Reached, Prefixed;
    forall r, p | r in w0 && At(w0, r, p) == Some(n)
      ensures DirsMarkedFrom(w0, w, Abs(st, w, n), r, p, dirs)
    {
      assert DigMarkedFrom(w0, w, r, p, dirs, i);
      forall q
        ensures LazyAt(w, r, q) <==> LazyAt(w0, r, q) && !Reached(Abs(st, w, n), p, dirs, q)
      {
        ReachedIs(Abs(st, w, n), p, dirs, i, q);
      }
    }
  }

  /** Loading the root beforehand is covered. */
  lemma DirsMarkedAfter<Ref>(st: Store, w: World<Ref>, w0: World<Ref>, w': World<Ref>, n: Ref, dirs: Path)
    requires Grown(w, w0) && Marked(w, w0, n, LOAD) && Inv(st, w') && n in w' && DirsMarked(st, w0, w', n, dirs)
    ensures DirsMarked(st, w, w', n, dirs)
  {
    hide Inv, Abs, At, LazyAt;
    forall r, p | r in w && At(w, r, p) == Some(n)
      ensures DirsMarkedFrom(w, w', Abs(st, w', n), r, p, dirs)
    {
      AtGrows(w, w0, r, p);
      assert r in w0;
      assert MarkedFrom(w, w0, LOAD, r, p) && DirsMarkedFrom(w0, w', Abs(st, w', n), r, p, dirs);
      assert p == p + dirs[..0] && GetAt(Abs(st, w', n), dirs[..0]).Some?;
    }
  }

  lemma NoDirBehindFile<Ref>(st: Store, w: World<Ref>, n: Ref, dirs: Path, i: nat, s: Ref)
    requires Inv(st, w) && i < |dirs| && At(w, n, dirs[..i]) == Some(s) && s in w && w[s].state.Whole? && dirs[i] in w[s].files
    ensures n in w && GetAt(Abs(st, w, n), dirs[..i]).Some? && GetAt(Abs(st, w, n), dirs[..i + 1]) == None
  {
    assert DownOk(w, s);
    hide Inv, Abs, At;
    GetAtAbs(st, w, n, dirs[..i], s);
    AbsWhole(st, w, s);
    NoDirThere(Abs(st, w, n), dirs, i);
  }

  lemma NoDirThere(t: Tree, dirs: Path, i: nat)
    requires i < |dirs| && GetAt(t, dirs[..i]).Some? && dirs[i] !in GetAt(t, dirs[..i]).value.subdirs
    ensures GetAt(t, dirs[..i + 1]) == None
  {
    assert dirs[..i + 1] == dirs[..i] + [dirs[i]];
    GetAtDeep(t, dirs[..i], [dirs[i]]);
  }

  /** All or nothing: either every parent directory is there, or no tree but the root's metadata changed. */
  ghost predicate ParentsEnsured<Ref>(st: Store, w: World<Ref>, w': World<Ref>, n: Ref, dirs: Path, meta: Checksum, reply: Reply, out: Option<Ref>) {
    && Within(st, w, w', n)
    && (reply != LoadFailed ==> DirsMarked(st, w, w', n, dirs))
    && var t, t' := Stamped(Abs(st, w, n), meta), Abs(st, w', n);
    match reply
    case FoundDir => MakeDirs(t, dirs, meta) == Some(t') && out.Some? && At(w', n, dirs) == out
    case IsFile => MakeDirs(t, dirs, meta) == None && t' == t && Edited(st, w, w', n)
    case LoadFailed => t' == t && Edited(st, w, w', n)
    case _ => false
  }

  /** After the root has been loaded and stamped. */
  ghost predicate RootStamped<Ref>(st: Store, w: World<Ref>, w0: World<Ref>, n: Ref, meta: Checksum) {
    Edited(st, w, w0, n) && Grown(w, w0) && Abs(st, w0, n) == Stamped(Abs(st, w, n), meta) && Marked(w, w0, n, LOAD)
  }

  lemma RootStampedNow<Ref>(st: Store, w: World<Ref>, w1: World<Ref>, n: Ref, meta: Checksum)
    requires Unedited(st, w, w1) && n in w && Marked(w, w1, n, LOAD)
    ensures n in w1
    ensures w1[n].meta == None ==> RootStamped(st, w, WithMeta(w1, n, meta), n, meta)
    ensures w1[n].meta != None ==> RootStamped(st, w, w1, n, meta)
  {
    hide Inv, Edited, Unedited, Grown, WithMeta, Abs, Marked;
    UneditedFacts(st, w, w1);
    AbsMeta(st, w1, n);
    if w1[n].meta == None {
      var w0 := WithMeta(w1, n, meta);
      SetMetaStep(st, w1, n, meta);
      MarkedThen(w, w1, w0, n, LOAD);
      WithMetaGrows(st, w1, n, meta);
      EditedAfter(st, w, w1, w0, n);
      GrownTwice(w, w1, w0);
    } else {
      EditedByTables(st, w1, w1, n);
      EditedAfter(st, w, w1, w1, n);
    }
  }

  lemma WithMetaGrows<Ref>(st: Store, w: World<Ref>, n: Ref, meta: Checksum)
    requires Inv(st, w) && n in w
    ensures Grown(w, WithMeta(w, n, meta))
  {
    WithMetaKeeps(st, w, n, meta);
  }

  /** What the loop over the path components achieves from the stamped root. */
  ghost predicate Dug<Ref>(st: Store, w0: World<Ref>, w': World<Ref>, n: Ref, dirs: Path, meta: Checksum, reply: Reply, out: Option<Ref>) {
    && Within(st, w0, w', n)
    && (reply != LoadFailed ==> DirsMarked(st, w0, w', n, dirs))
    && match reply
       case FoundDir => MakeDirs(Abs(st, w0, n), dirs, meta) == Some(Abs(st, w', n)) && out.Some? && At(w', n, dirs) == out
       case IsFile => MakeDirs(Abs(st, w0, n), dirs, meta) == None && Unedited(st, w0, w')
       case LoadFailed => Unedited(st, w0, w')
       case _ => false
  }

  lemma EnsuredByDigging<Ref>(st: Store, w: World<Ref>, w0: World<Ref>, w': World<Ref>, n: Ref, dirs: Path, meta: Checksum, reply: Reply, out: Option<Ref>)
    requires RootStamped(st, w, w0, n, meta) && Dug(st, w0, w', n, dirs, meta, reply, out)
    ensures ParentsEnsured(st, w, w', n, dirs, meta, reply, out)
  {
    hide Marked, DirsMarked;
    if reply != LoadFailed { DirsMarkedAfter(st, w, w0, w', n, dirs); }
    WithinByEdit(st, w, w0, n, [], n);
    WithinTwice(st, w, w0, w', n);
    if reply != FoundDir { EditedThen(st, w, w0, w', n); }
  }

  /** The node returned stands at the path without its last name. */
  lemma EnsuredPath<Ref>(st: Store, w: World<Ref>, w': World<Ref>, n: Ref, path: Path, meta: Checksum, out: Option<Ref>)
    requires ParentsEnsured(st, w, w', n, Parents(path), meta, FoundDir, out)
    ensures path != [] ==> At(w', n, path[..|path| - 1]) == out
    ensures path == [] ==> out == Some(n)
  {
  }

  lemma EnsuredByFailing<Ref>(st: Store, w: World<Ref>, n: Ref, dirs: Path, meta: Checksum)
    requires Inv(st, w) && n in w && w[n].meta.Some?
    ensures ParentsEnsured(st, w, w, n, dirs, meta, LoadFailed, None)
  {
    WithinByLoad(st, w, w, n);
    EditedByTables(st, w, w, n);
    AbsMeta(st, w, n);
  }

  lemma DugToFile<Ref>(st: Store, w0: World<Ref>, w: World<Ref>, n: Ref, dirs: Path, i: nat, meta: Checksum, s: Ref, created: bool)
    requires Descended(st, w0, w, n, dirs, i, meta, s, created)
    requires i < |dirs| && dirs[i] in w[s].files
    ensures Dug(st, w0, w, n, dirs, meta, IsFile, None)
  {
    hide DirsMarked, DigMarked;
    NoDirBehindFile(st, w, n, dirs, i, s);
    DirsMarkedBy(st, w0, w, n, dirs, i);
    DescendedToFile(st, w0, w, n, dirs, i, meta, s, created);
  }

  lemma DugToFailure<Ref>(st: Store, w0: World<Ref>, w: World<Ref>, n: Ref, dirs: Path, i: nat, meta: Checksum, s: Ref)
    requires Descended(st, w0, w, n, dirs, i, meta, s, false)
    ensures Dug(st, w0, w, n, dirs, meta, LoadFailed, None)
  {
  }

  lemma DugToEnd<Ref>(st: Store, w0: World<Ref>, w: World<Ref>, n: Ref, dirs: Path, meta: Checksum, s: Ref, created: bool)
    requires Descended(st, w0, w, n, dirs, |dirs|, meta, s, created)
    ensures Dug(st, w0, w, n, dirs, meta, FoundDir, Some(s))
  {
    hide DirsMarked, DigMarked;
    GetAtAbs(st, w, n, dirs[..|dirs|], s);
    DirsMarkedBy(st, w0, w, n, dirs, |dirs|);
    DescendedToEnd(st, w0, w, n, dirs, meta, s, created);
  }

  lemma DescendedFacts<Ref>(st: Store, w0: World<Ref>, w: World<Ref>, n: Ref, dirs: Path, i: nat, meta: Checksum, s: Ref, created: bool)
    requires Descended(st, w0, w, n, dirs, i, meta, s, created)
    ensures Inv(st, w) && s in w && w[s].state.Whole?
    ensures forall k :: k in w[s].subdirs ==> !created && w[s].subdirs[k] in w
  {
    assert DownOk(w, s);
  }

  // --- set_contents_checksum and writing a tree ----------------------------------------

  /** Children with cached checksums and metadata make the directory writable, and give its hash. */
  lemma HashFromChildren<Ref>(st: Store, w: World<Ref>, n: Ref)
    requires Inv(st, w) && n in w && w[n].state.Whole?
    requires forall k :: k in w[n].subdirs ==>
                           w[n].subdirs[k] in w && w[w[n].subdirs[k]].contents.Some? && w[w[n].subdirs[k]].meta.Some?
    ensures Complete(Abs(st, w, n)) && ContentsHash(st, Abs(st, w, n)) == st.hash(CachedObject(w, n))
  {
    var t := Abs(st, w, n);
    AbsWhole(st, w, n);
    forall k | k in w[n].subdirs
      ensures t.subdirs[k].meta.Some? && Complete(t.subdirs[k])
      ensures DirEntry(ContentsHash(st, t.subdirs[k]), t.subdirs[k].meta.value) == CachedObject(w, n).subdirs[k]
    {
      AbsChild(st, w, n, k);
      CacheIsRight(st, w, w[n].subdirs[k]);
      AbsMeta(st, w, w[n].subdirs[k]);
    }
    assert ObjectOf(st, t).subdirs == CachedObject(w, n).subdirs;
  }

  /** Caching a true checksum bottom-up keeps the invariant and changes no tree. */
  lemma SetContentsStep<Ref>(st: Store, w: World<Ref>, n: Ref, c: Checksum)
    requires Inv(st, w) && n in w && w[n].contents == None
    requires forall k :: k in w[n].subdirs ==> w[n].subdirs[k] in w && w[w[n].subdirs[k]].contents.Some?
    requires Complete(Abs(st, w, n)) && c == ContentsHash(st, Abs(st, w, n))
    ensures Unedited(st, w, w[n := w[n].(contents := Some(c))])
  {
    assert CacheOk(st, w, n);
    hide Inv, Abs, Complete, ContentsHash, CachedObject;
    ChildrenComplete(st, w, n);
    HashFromChildren(st, w, n);
    CacheAdded(st, w, n, c);
    TreesStay(st, w, n, Some(c));
  }

  lemma ChildrenComplete<Ref>(st: Store, w: World<Ref>, n: Ref)
    requires Inv(st, w) && n in w && Complete(Abs(st, w, n))
    ensures forall k :: k in w[n].subdirs ==> w[n].subdirs[k] in w && w[w[n].subdirs[k]].meta.Some?
  {
    forall k | k in w[n].subdirs
      ensures w[n].subdirs[k] in w && w[w[n].subdirs[k]].meta.Some?
    {
      hide Inv, Abs;
      AbsChild(st, w, n, k);
      AbsMeta(st, w, w[n].subdirs[k]);
    }
  }

  /** The cache of a loaded node is no part of any tree. */
  lemma TreesStay<Ref>(st: Store, w: World<Ref>, n: Ref, contents: Option<Checksum>)
    requires Inv(st, w) && n in w && w[n].state.Whole? && Inv(st, w[n := w[n].(contents := contents)])
    ensures Unedited(st, w, w[n := w[n].(contents := contents)])
  {
    var w' := w[n := w[n].(contents := contents)];
    forall m | m in w
      ensures Abs(st, w', m) == Abs(st, w, m)
    {
      hide Inv, Abs;
      SameTrees(st, w, w', m);
    }
  }

  lemma CacheAdded<Ref>(st: Store, w: World<Ref>, n: Ref, c: Checksum)
    requires Inv(st, w) && n in w && w[n].contents == None && w[n].state.Whole?
    requires forall k :: k in w[n].subdirs ==>
                           w[n].subdirs[k] in w && w[w[n].subdirs[k]].contents.Some? && w[w[n].subdirs[k]].meta.Some?
    requires c == st.hash(CachedObject(w, n))
    ensures Inv(st, w[n := w[n].(contents := Some(c))])
  {
    var w' := w[n := w[n].(contents := Some(c))];
    forall m | m in w
      ensures w'[m].files.Keys !! w'[m].subdirs.Keys
      ensures CacheOk(st, w', m)
    {
      assert DownOk(w, m) && CacheOk(st, w, m);
      if m == n { CacheAddedHere(st, w, n, c); } else { CacheCarries(st, w, w', m); }
    }
    ShapeCarries(w, w');
  }

  lemma CacheAddedHere<Ref>(st: Store, w: World<Ref>, n: Ref, c: Checksum)
    requires n in w && w[n].state.Whole? && DownOk(w, n)
    requires forall k :: k in w[n].subdirs ==>
                           w[n].subdirs[k] in w && w[w[n].subdirs[k]].contents.Some? && w[w[n].subdirs[k]].meta.Some?
    requires c == st.hash(CachedObject(w, n))
    ensures CacheOk(st, w[n := w[n].(contents := Some(c))], n)
  {
    var w' := w[n := w[n].(contents := Some(c))];
    assert CachedObject(w', n).subdirs == CachedObject(w, n).subdirs;
  }

  lemma {:induction false} SameTrees<Ref>(st: Store, w: World<Ref>, w': World<Ref>, m: Ref)
    requires Inv(st, w) && Inv(st, w') && m in w
    requires forall x :: x in w ==> x in w' && SameTables(w[x], w'[x])
    ensures Abs(st, w', m) == Abs(st, w, m)
    decreases Below(w, m)
  {
    forall k | k in w[m].subdirs
      ensures w[m].subdirs[k] in w && Abs(st, w', w[m].subdirs[k]) == Abs(st, w, w[m].subdirs[k])
    {
      ChildIsBelow(w, m, k);
      SameTrees(st, w, w', w[m].subdirs[k]);
    }
    AbsFromChildren(st, w, w', m, None);
  }

  /** Writing a directory whose child cannot be written fails. */
  lemma CommitFailsBelow<Ref>(st: Store, w: World<Ref>, n: Ref, k: Name)
    requires Inv(st, w) && n in w && k in w[n].subdirs
    ensures w[n].subdirs[k] in w
    ensures CommitOf(st, Abs(st, w, w[n].subdirs[k])) == NoMetadata ==> CommitOf(st, Abs(st, w, n)) == NoMetadata
  {
    AbsChild(st, w, n, k);
  }

  /** The only difference is that some missing caches have been filled in. */
  ghost predicate CachesAdded<Ref>(w: World<Ref>, w': World<Ref>) {
    && w'.Keys == w.Keys
    && forall m :: m in w ==>
                     && w'[m] == w[m].(contents := w'[m].contents)
                     && (w[m].contents.Some? ==> w'[m].contents == w[m].contents)
  }

  lemma CachesAddedTwice<Ref>(w: World<Ref>, w1: World<Ref>, w2: World<Ref>)
    requires CachesAdded(w, w1) && CachesAdded(w1, w2)
    ensures CachesAdded(w, w2)
  {
  }

  /** `entries` lists the checksums now cached in some of the children of `n`. */
  ghost predicate Written<Ref>(w: World<Ref>, n: Ref, entries: map<Name, DirEntry>) {
    n in w && forall k :: k in entries ==>
                            && k in w[n].subdirs && w[n].subdirs[k] in w
                            && w[w[n].subdirs[k]].contents == Some(entries[k].contents)
                            && w[w[n].subdirs[k]].meta == Some(entries[k].meta)
  }

  lemma WrittenOneMore<Ref>(w: World<Ref>, w1: World<Ref>, n: Ref, entries: map<Name, DirEntry>, k: Name, e: DirEntry)
    requires Written(w, n, entries) && CachesAdded(w, w1)
    requires k in w[n].subdirs && w[n].subdirs[k] in w
    requires w1[w[n].subdirs[k]].contents == Some(e.contents) && w1[w[n].subdirs[k]].meta == Some(e.meta)
    ensures Written(w1, n, entries[k := e])
  {
  }

  lemma WrittenAll<Ref>(st: Store, w: World<Ref>, n: Ref, entries: map<Name, DirEntry>)
    requires Inv(st, w) && Written(w, n, entries) && entries.Keys == w[n].subdirs.Keys
    requires w[n].state.Whole? && w[n].meta.Some?
    ensures Complete(Abs(st, w, n)) && ContentsHash(st, Abs(st, w, n)) == st.hash(DirTree(w[n].files, entries))
    ensures CommitOf(st, Abs(st, w, n)) == Committed(st.hash(DirTree(w[n].files, entries)), w[n].meta.value)
    ensures forall k :: k in w[n].subdirs ==> w[n].subdirs[k] in w && w[w[n].subdirs[k]].contents.Some?
  {
    HashFromChildren(st, w, n);
    AbsMeta(st, w, n);
    assert CachedObject(w, n).subdirs == entries;
  }

  lemma BelowOfChild<Ref>(st: Store, w: World<Ref>, w1: World<Ref>, n: Ref, k: Name)
    requires Inv(st, w) && CachesAdded(w, w1) && n in w && k in w[n].subdirs
    ensures w[n].subdirs[k] in w1 && Below(w1, w[n].subdirs[k]) < Below(w, n)
  {
    ChildIsBelow(w, n, k);
    assert Below(w1, w[n].subdirs[k]) == Below(w, w[n].subdirs[k]);
  }
}
