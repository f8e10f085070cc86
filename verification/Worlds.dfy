/**
 Snapshots of a heap of mutable tree nodes: the shape of the forest, the rule for cached
 checksums, and the pure tree a node stands for.  Everything here is about values, with
 the object references left as a type parameter.
 */
module Worlds {
  import opened Options
  import opened DirTrees

  /** LAZY carries the repository the contents will be read from. */
  datatype LoadState = Whole | Lazy(repo: Repo)

  /** The fields of one node; `depth` is a ghost count of its distance to the top. */
  datatype Node<Ref> = Node(
    parent: Option<Ref>, state: LoadState, contents: Option<Checksum>, meta: Option<Checksum>,
    files: map<Name, Checksum>, subdirs: map<Name, Ref>, depth: nat)

  type World<Ref> = map<Ref, Node<Ref>>

  // --- The forest ---------------------------------------------------------------------

  ghost predicate HasChild<Ref>(w: World<Ref>, p: Ref, c: Ref) {
    p in w && exists k :: k in w[p].subdirs && w[p].subdirs[k] == c
  }

  /** A parent link is matched by an entry in the parent's table. */
  ghost predicate UpOk<Ref>(w: World<Ref>, n: Ref)
    requires n in w
  {
    w[n].parent.Some? ==> HasChild(w, w[n].parent.value, n)
  }

  ghost predicate DownOk<Ref>(w: World<Ref>, n: Ref)
    requires n in w
  {
    && (forall k :: k in w[n].subdirs ==>
                      && w[n].subdirs[k] in w
                      && w[w[n].subdirs[k]].parent == Some(n)
                      && w[w[n].subdirs[k]].depth == w[n].depth + 1)
    && (forall j, k :: j in w[n].subdirs && k in w[n].subdirs && w[n].subdirs[j] == w[n].subdirs[k] ==> j == k)
    && w[n].files.Keys !! w[n].subdirs.Keys
  }

  ghost predicate ShapeAt<Ref>(w: World<Ref>, n: Ref)
    requires n in w
  {
    UpOk(w, n) && DownOk(w, n)
  }

  /** Nodes form a forest: parent links and tables agree, and no name is both kinds. */
  ghost predicate Shape<Ref>(w: World<Ref>) {
    forall n :: n in w ==> ShapeAt(w, n)
  }

  /** `a` is `n` or one of the directories above it. */
  ghost predicate Above<Ref>(w: World<Ref>, a: Ref, n: Ref)
    requires Shape(w) && n in w
    decreases w[n].depth
  {
    assert ShapeAt(w, n);
    a == n || (w[n].parent.Some? && assert ShapeAt(w, w[n].parent.value); Above(w, a, w[n].parent.value))
  }

  /** The node reached from `r` through loaded directories. */
  ghost function At<Ref>(w: World<Ref>, r: Ref, path: seq<Name>): Option<Ref> {
    if r !in w then None
    else if path == [] then Some(r)
    else if path[0] in w[r].subdirs then At(w, w[r].subdirs[path[0]], path[1..])
    else None
  }

  // --- Cached checksums ---------------------------------------------------------------

  /** The dirtree object of a loaded directory, from the checksums cached in its children. */
  ghost function CachedObject<Ref>(w: World<Ref>, n: Ref): DirTree
    requires n in w
    requires forall k :: k in w[n].subdirs ==>
                           w[n].subdirs[k] in w && w[w[n].subdirs[k]].contents.Some? && w[w[n].subdirs[k]].meta.Some?
  {
    DirTree(w[n].files, map k | k in w[n].subdirs ::
              DirEntry(w[w[n].subdirs[k]].contents.value, w[w[n].subdirs[k]].meta.value))
  }

  /**
   The rule one node's cache keeps.  It only looks at the node and its children; that it
   makes every cached checksum right is `CacheIsRight` below.
   */
  ghost predicate CacheOk<Ref>(st: Store, w: World<Ref>, n: Ref)
    requires n in w
  {
    match w[n].state
    case Lazy(repo) =>
      && w[n].files == map[] && w[n].subdirs == map[]
      && w[n].contents.Some? && w[n].meta.Some?
      && w[n].contents.value in st.objects && st.Serves(repo)
    case Whole =>
      w[n].contents.Some? ==>
        && (forall k :: k in w[n].subdirs ==>
                          w[n].subdirs[k] in w && w[w[n].subdirs[k]].contents.Some? && w[w[n].subdirs[k]].meta.Some?)
        && w[n].contents.value == st.hash(CachedObject(w, n))
  }

  ghost predicate Inv<Ref>(st: Store, w: World<Ref>) {
    && st.Valid()
    && Shape(w)
    && forall n :: n in w ==> CacheOk(st, w, n)
  }

  // --- What a node stands for ---------------------------------------------------------

  ghost function Below<Ref>(w: World<Ref>, n: Ref): set<Ref>
    requires n in w
  {
    set m | m in w && w[m].depth > w[n].depth
  }

  ghost function Abs<Ref>(st: Store, w: World<Ref>, n: Ref): Tree
    requires Inv(st, w) && n in w
    decreases Below(w, n)
  {
    match w[n].state
    case Lazy(_) =>
      assert CacheOk(st, w, n);
      Resolve(st, w[n].contents.value, w[n].meta.value)
    case Whole =>
      assert ShapeAt(w, n);
      Tree(w[n].meta, w[n].files,
           map k | k in w[n].subdirs ::
             assert w[n].subdirs[k] in Below(w, n) && w[n].subdirs[k] !in Below(w, w[n].subdirs[k]);
             Abs(st, w, w[n].subdirs[k]))
  }

  /** Every cached checksum is the Merkle hash of the tree the node stands for. */
  lemma {:induction false} CacheIsRight<Ref>(st: Store, w: World<Ref>, n: Ref)
    requires Inv(st, w) && n in w && w[n].contents.Some?
    ensures Complete(Abs(st, w, n))
    ensures w[n].contents == Some(ContentsHash(st, Abs(st, w, n)))
    decreases Below(w, n)
  {
    assert CacheOk(st, w, n) && ShapeAt(w, n);
    if w[n].state.Lazy? {
      ResolveHash(st, w[n].contents.value, w[n].meta.value);
    } else {
      var t := Abs(st, w, n);
      forall k | k in w[n].subdirs
        ensures t.subdirs[k].meta.Some? && Complete(t.subdirs[k])
        ensures ContentsHash(st, t.subdirs[k]) == w[w[n].subdirs[k]].contents.value
        ensures t.subdirs[k].meta == w[w[n].subdirs[k]].meta
      {
        assert w[n].subdirs[k] in Below(w, n) && w[n].subdirs[k] !in Below(w, w[n].subdirs[k]);
        CacheIsRight(st, w, w[n].subdirs[k]);
        AbsMeta(st, w, w[n].subdirs[k]);
      }
      assert ObjectOf(st, t).subdirs == CachedObject(w, n).subdirs;
    }
  }

  lemma AbsMeta<Ref>(st: Store, w: World<Ref>, n: Ref)
    requires Inv(st, w) && n in w
    ensures Abs(st, w, n).meta == w[n].meta
  {
    assert CacheOk(st, w, n);
  }

  lemma AbsWhole<Ref>(st: Store, w: World<Ref>, n: Ref)
    requires Inv(st, w) && n in w && w[n].state.Whole?
    ensures Abs(st, w, n).meta == w[n].meta && Abs(st, w, n).files == w[n].files
    ensures Abs(st, w, n).subdirs.Keys == w[n].subdirs.Keys
  {
  }
}
