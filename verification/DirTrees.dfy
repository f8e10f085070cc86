/**
 The content-addressed side of the mutable tree: dirtree objects, the space of objects a
 checksum may name, and the pure directory tree a checksum stands for.

 The checksum function is a parameter: all that is known of it is that it is injective.
 */
module DirTrees {
  import opened Options

  /** One `(name, dirtree checksum, dirmeta checksum)` entry of a dirtree object. */
  datatype DirEntry = DirEntry(contents: Checksum, meta: Checksum)

  /** A dirtree object.  Its two arrays are sorted by name, so they are maps. */
  datatype DirTree = DirTree(files: map<Name, Checksum>, subdirs: map<Name, DirEntry>)

  const EMPTY_DIRTREE := DirTree(map[], map[])
  const EMPTY_TREE_CSUM := 0x6e340b9cffb37a989ca544e6bb780a2c78901d3fb33738768511a30617afa01d

  /** What a repository can load. It may lack some of the objects that exist. */
  type Repo = map<Checksum, DirTree>

  /**
   Every dirtree object that exists anywhere.  `rank` witnesses that no object contains
   itself, which is what makes a checksum stand for a finite tree.
   */
  datatype Store = Store(hash: DirTree -> Checksum, objects: map<Checksum, DirTree>, rank: Checksum -> nat)
  {
    ghost predicate ObjectOk(c: Checksum)
      requires c in objects
    {
      && hash(objects[c]) == c
      && objects[c].files.Keys !! objects[c].subdirs.Keys
      && forall n :: n in objects[c].subdirs ==>
                       && objects[c].subdirs[n].contents in objects
                       && rank(objects[c].subdirs[n].contents) < rank(c)
    }

    ghost predicate Valid() {
      && (forall a, b :: hash(a) == hash(b) ==> a == b)
      && hash(EMPTY_DIRTREE) == EMPTY_TREE_CSUM
      && forall c :: c in objects ==> ObjectOk(c)
    }

    /** A repository only ever holds objects that exist. */
    ghost predicate Serves(repo: Repo) {
      forall c :: c in repo ==> c in objects && repo[c] == objects[c]
    }
  }

  /** The fully loaded, pure form of a directory: the reference for the mutable tree. */
  datatype Tree = Tree(meta: Option<Checksum>, files: map<Name, Checksum>, subdirs: map<Name, Tree>)

  const EMPTY_TREE := Tree(None, map[], map[])

  /** The tree that a dirtree checksum and a dirmeta checksum stand for. */
  ghost function Resolve(st: Store, c: Checksum, meta: Checksum): (t: Tree)
    requires st.Valid() && c in st.objects
    decreases st.rank(c)
  {
    var o := st.objects[c];
    assert st.ObjectOk(c);
    Tree(Some(meta), o.files,
         map n | n in o.subdirs :: Resolve(st, o.subdirs[n].contents, o.subdirs[n].meta))
  }

  /** A tree whose contents can be written: every directory below the root has metadata. */
  ghost predicate Complete(t: Tree) {
    forall n :: n in t.subdirs ==> t.subdirs[n].meta.Some? && Complete(t.subdirs[n])
  }

  /** The dirtree object of a tree's root, its children replaced by their checksums. */
  ghost function ObjectOf(st: Store, t: Tree): DirTree
    requires Complete(t)
    decreases t, 0
  {
    DirTree(t.files,
            map n | n in t.subdirs :: DirEntry(ContentsHash(st, t.subdirs[n]), t.subdirs[n].meta.value))
  }

  /** The Merkle hash of a tree's contents, recomputed from the leaves up. */
  ghost function ContentsHash(st: Store, t: Tree): Checksum
    requires Complete(t)
    decreases t, 1
  {
    st.hash(ObjectOf(st, t))
  }

  lemma {:induction false} ResolveHash(st: Store, c: Checksum, meta: Checksum)
    requires st.Valid() && c in st.objects
    ensures Complete(Resolve(st, c, meta))
    ensures ContentsHash(st, Resolve(st, c, meta)) == c
    decreases st.rank(c)
  {
    assert st.ObjectOk(c);
    var o, t := st.objects[c], Resolve(st, c, meta);
    forall n | n in o.subdirs
      ensures t.subdirs[n].meta.Some? && Complete(t.subdirs[n])
      ensures DirEntry(ContentsHash(st, t.subdirs[n]), t.subdirs[n].meta.value) == o.subdirs[n]
    {
      ResolveHash(st, o.subdirs[n].contents, o.subdirs[n].meta);
    }
    assert ObjectOf(st, t).subdirs == o.subdirs;
  }

  /** The Merkle hash determines the contents: the root metadata is all it leaves open. */
  lemma {:induction false} ContentsHashInjective(st: Store, a: Tree, b: Tree)
    requires st.Valid() && Complete(a) && Complete(b)
    requires ContentsHash(st, a) == ContentsHash(st, b)
    ensures a.files == b.files && a.subdirs == b.subdirs
    decreases a
  {
    var oa, ob := ObjectOf(st, a), ObjectOf(st, b);
    assert oa == ob;
    assert a.subdirs.Keys == oa.subdirs.Keys == ob.subdirs.Keys == b.subdirs.Keys;
    forall n | n in a.subdirs
      ensures a.subdirs[n] == b.subdirs[n]
    {
      assert oa.subdirs[n] == ob.subdirs[n];
      ContentsHashInjective(st, a.subdirs[n], b.subdirs[n]);
    }
  }

  /** The outcome of writing a tree to a repository. */
  datatype Commit = NoMetadata | Committed(contents: Checksum, meta: Checksum)

  /** Writing a tree from scratch: it works exactly if every directory has metadata. */
  ghost function CommitOf(st: Store, t: Tree): Commit {
    if t.meta.Some? && Complete(t) then Committed(ContentsHash(st, t), t.meta.value) else NoMetadata
  }
}
