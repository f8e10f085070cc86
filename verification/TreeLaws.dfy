/**
 What the tree operations promise, said of the entries of a directory and of runs, without
 naming how the reference computes it.
 */
module TreeLaws {
  import opened Options
  import opened DirTrees
  import opened TreePaths
  import opened TreeCommands

  // --- one operation on one directory -------------------------------------------------------

  /** Names that no entry can have. */
  predicate BadName(name: Name) {
    name == "." || name == ".." || exists i :: 0 <= i < |name| && name[i] == '/'
  }

  /** The two directories agree on every entry but the one named. */
  ghost predicate SameBut(d: Tree, d': Tree, name: Name) {
    && d'.meta == d.meta
    && forall k :: k != name ==>
                     && (k in d'.files <==> k in d.files) && (k in d.files ==> d'.files[k] == d.files[k])
                     && (k in d'.subdirs <==> k in d.subdirs) && (k in d.subdirs ==> d'.subdirs[k] == d.subdirs[k])
  }

  lemma LookupIff(d: Tree, name: Name, c: Checksum)
    ensures var (d', r) := Apply(Lookup(name), d);
            && d' == d
            && (r == FoundDir <==> name in d.subdirs)
            && (r == FoundFile(c) <==> name !in d.subdirs && name in d.files && d.files[name] == c)
            && (r == NoEntry <==> name !in d.subdirs && name !in d.files)
  {
  }

  lemma ReplaceFileIff(d: Tree, name: Name, c: Checksum)
    ensures var (d', r) := Apply(ReplaceFile(name, c), d);
            && (r == InvalidName <==> BadName(name))
            && (r == IsDirectory <==> !BadName(name) && name in d.subdirs)
            && (r == Done <==> !BadName(name) && name !in d.subdirs)
            && (r != Done ==> d' == d)
            && (r == Done ==> SameBut(d, d', name) && name in d'.files && d'.files[name] == c && name !in d'.subdirs)
  {
  }

  lemma RemoveIff(d: Tree, name: Name, allowNoent: bool)
    requires d.files.Keys !! d.subdirs.Keys
    ensures var (d', r) := Apply(Remove(name, allowNoent), d);
            && (r == InvalidName <==> BadName(name))
            && (r == NoEntry <==> !BadName(name) && name !in d.files && name !in d.subdirs && !allowNoent)
            && (r == Done <==> !BadName(name) && (name in d.files || name in d.subdirs || allowNoent))
            && (r != Done ==> d' == d)
            && (r == Done ==> SameBut(d, d', name) && name !in d'.files && name !in d'.subdirs)
  {
  }

  lemma EnsureDirIff(d: Tree, name: Name)
    ensures var (d', r) := Apply(EnsureDir(name), d);
            && (r == InvalidName <==> BadName(name))
            && (r == IsFile <==> !BadName(name) && name in d.files)
            && (r == FoundDir <==> !BadName(name) && name !in d.files)
            && (r != FoundDir || name in d.subdirs ==> d' == d)
            && (r == FoundDir ==> SameBut(d, d', name) && name in d'.subdirs && name !in d'.files)
            && (r == FoundDir && name !in d.subdirs ==> d'.subdirs[name] == Tree(None, map[], map[]))
  {
  }

  lemma SetMetadataIs(d: Tree, c: Checksum)
    ensures Apply(SetMetadata(c), d) == (Tree(Some(c), d.files, d.subdirs), Done)
  {
  }

  // --- directories at paths -----------------------------------------------------------------

  lemma {:induction false} GetPut(t: Tree, p: Path, d: Tree, s: Path)
    requires GetAt(t, p).Some?
    ensures GetAt(PutAt(t, p, d), p + s) == GetAt(d, s)
    decreases |p|
  {
    if p == [] {
      assert p + s == s;
    } else {
      assert (p + s)[1..] == p[1..] + s;
      GetPut(t.subdirs[p[0]], p[1..], d, s);
    }
  }

  /** What a directory shows of itself: all but what its subdirectories hold. */
  ghost predicate SameFace(d: Option<Tree>, d': Option<Tree>) {
    && (d.Some? <==> d'.Some?)
    && (d.Some? ==>
          d'.value.meta == d.value.meta && d'.value.files == d.value.files
          && d'.value.subdirs.Keys == d.value.subdirs.Keys)
  }

  /** A directory that is not at or below the one replaced shows what it showed. */
  lemma {:induction false} GetPutElsewhere(t: Tree, p: Path, d: Tree, q: Path)
    requires GetAt(t, p).Some? && !(p <= q)
    ensures SameFace(GetAt(t, q), GetAt(PutAt(t, p, d), q))
    decreases |p|
  {
    if q != [] && q[0] == p[0] {
      assert !(p[1..] <= q[1..]) by { assert p[1..] <= q[1..] ==> p <= q; }
      GetPutElsewhere(t.subdirs[p[0]], p[1..], d, q[1..]);
    }
  }

  // --- runs: looking after changing ---------------------------------------------------------

  /** What a lookup at a path answers. */
  ghost function Found(st: Store, t: Tree, p: Path, name: Name): Answer {
    Interpret(st, t, OnDir(p, Lookup(name))).1
  }

  lemma FoundIs(st: Store, t: Tree, p: Path, name: Name)
    ensures Found(st, t, p, name) ==
            match GetAt(t, p)
            case None => NoDir
            case Some(d) =>
              Replied(if name in d.subdirs then FoundDir
                      else if name in d.files then FoundFile(d.files[name]) else NoEntry)
  {
  }

  /** After a file was written it is found, with its checksum. */
  lemma FoundAfterReplace(st: Store, t: Tree, p: Path, name: Name, c: Checksum)
    requires Interpret(st, t, OnDir(p, ReplaceFile(name, c))).1 == Replied(Done)
    ensures Found(st, Interpret(st, t, OnDir(p, ReplaceFile(name, c))).0, p, name) == Replied(FoundFile(c))
  {
    var d := GetAt(t, p).value;
    var d' := Apply(ReplaceFile(name, c), d).0;
    GetPut(t, p, d', []);
    assert p + [] == p;
    ReplaceFileIff(d, name, c);
  }

  /** After a removal nothing is found. */
  lemma FoundAfterRemove(st: Store, t: Tree, p: Path, name: Name, allowNoent: bool)
    requires GetAt(t, p).Some? ==> GetAt(t, p).value.files.Keys !! GetAt(t, p).value.subdirs.Keys
    requires Interpret(st, t, OnDir(p, Remove(name, allowNoent))).1 == Replied(Done)
    ensures Found(st, Interpret(st, t, OnDir(p, Remove(name, allowNoent))).0, p, name) == Replied(NoEntry)
  {
    var d := GetAt(t, p).value;
    var d' := Apply(Remove(name, allowNoent), d).0;
    GetPut(t, p, d', []);
    assert p + [] == p;
    RemoveIff(d, name, allowNoent);
  }

  /** After a directory was ensured it is found, and can be entered. */
  lemma FoundAfterEnsure(st: Store, t: Tree, p: Path, name: Name)
    requires Interpret(st, t, OnDir(p, EnsureDir(name))).1 == Replied(FoundDir)
    ensures var t' := Interpret(st, t, OnDir(p, EnsureDir(name))).0;
            Found(st, t', p, name) == Replied(FoundDir) && GetAt(t', p + [name]).Some?
  {
    var d := GetAt(t, p).value;
    var d' := Apply(EnsureDir(name), d).0;
    GetPut(t, p, d', []);
    GetPut(t, p, d', [name]);
    assert p + [] == p && [name][1..] == [];
    EnsureDirIff(d, name);
  }

  function NameIn(op: Op): Option<Name> {
    match op
    case ReplaceFile(name, _) => Some(name)
    case Remove(name, _) => Some(name)
    case EnsureDir(name) => Some(name)
    case Lookup(_) => None
    case SetMetadata(_) => None
  }

  lemma AppliedElsewhere(d: Tree, op: Op, k: Name)
    requires NameIn(op) != Some(k)
    ensures var d' := Apply(op, d).0;
            && (k in d'.files <==> k in d.files) && (k in d.files ==> d'.files[k] == d.files[k])
            && (k in d'.subdirs <==> k in d.subdirs) && (k in d.subdirs ==> d'.subdirs[k] == d.subdirs[k])
  {
  }

  /** Every other entry of every other directory is found as before. */
  lemma FoundElsewhere(st: Store, t: Tree, p: Path, op: Op, q: Path, name: Name)
    requires q == p ==> NameIn(op) != Some(name)
    requires NameIn(op).Some? ==> !(p + [NameIn(op).value] <= q)
    ensures Found(st, Interpret(st, t, OnDir(p, op)).0, q, name) == Found(st, t, q, name)
  {
    hide Apply, Interpret;
    FoundIs(st, t, q, name);
    InterpretIs(st, t, p, op);
    if GetAt(t, p).Some? {
      var d := GetAt(t, p).value;
      var d' := Apply(op, d).0;
      var t' := PutAt(t, p, d');
      FoundIs(st, t', q, name);
      if p <= q {
        var s := q[|p|..];
        assert q == p + s;
        GetPut(t, p, d', s);
        GetAtDeep(t, p, s);
        if s == [] {
          AppliedElsewhere(d, op, name);
        } else {
          assert p + [s[0]] <= q;
          AppliedElsewhere(d, op, s[0]);
        }
      } else {
        GetPutElsewhere(t, p, d', q);
      }
    }
  }

  lemma InterpretIs(st: Store, t: Tree, p: Path, op: Op)
    ensures Interpret(st, t, OnDir(p, op)).0 ==
            match GetAt(t, p)
            case None => t
            case Some(d) => PutAt(t, p, Apply(op, d).0)
  {
  }

  // --- parent directories -------------------------------------------------------------------

  /** The parents of a path are all of it but its last name. */
  lemma ParentsAre(path: Path)
    ensures path != [] ==> Parents(path) + [path[|path| - 1]] == path
    ensures path == [] ==> Parents(path) == []
  {
  }

  /** What making the directories leaves at each of them. */
  ghost predicate MadeAt(t: Tree, t': Tree, dirs: Path, i: nat, meta: Checksum)
    requires i <= |dirs|
  {
    var next := if i < |dirs| then {dirs[i]} else {};
    && GetAt(t', dirs[..i]).Some?
    && var d' := GetAt(t', dirs[..i]).value;
    match GetAt(t, dirs[..i])
    case None => d'.meta == Some(meta) && d'.files == map[] && d'.subdirs.Keys == next
    case Some(d) =>
      && d'.meta == d.meta && d'.files == d.files && d'.subdirs.Keys == d.subdirs.Keys + next
      && forall k :: k in d.subdirs && k !in next ==> d'.subdirs[k] == d.subdirs[k]
  }

  /**
   On success every directory of the path is there: those that were there with their metadata, files
   and other subdirectories, the new ones with the given metadata and nothing but the next one.
   */
  lemma {:induction false} MakeDirsMakes(t: Tree, dirs: Path, meta: Checksum, i: nat)
    requires MakeDirs(t, dirs, meta).Some? && i <= |dirs|
    ensures MadeAt(t, MakeDirs(t, dirs, meta).value, dirs, i, meta)
    decreases |dirs|
  {
    if dirs != [] {
      var k := dirs[0];
      var child := if k in t.subdirs then t.subdirs[k] else EMPTY_TREE.(meta := Some(meta));
      if i > 0 {
        MakeDirsMakes(child, dirs[1..], meta, i - 1);
        assert dirs[..i][1..] == dirs[1..][..i - 1];
        if k !in t.subdirs && i > 1 { assert dirs[1..][..i - 1][0] == dirs[1]; }
      }
    }
  }

  /** It fails exactly if a name on the way is a file. */
  lemma {:induction false} MakeDirsFails(t: Tree, dirs: Path, meta: Checksum)
    ensures MakeDirs(t, dirs, meta).None? <==>
            exists i :: 0 <= i < |dirs| && FileAt(t, dirs, i)
    decreases |dirs|
  {
    if dirs != [] {
      var k := dirs[0];
      var child := if k in t.subdirs then t.subdirs[k] else EMPTY_TREE.(meta := Some(meta));
      MakeDirsFails(child, dirs[1..], meta);
      assert dirs[..0] == [];
      forall i | 0 <= i < |dirs| - 1
        ensures FileAt(child, dirs[1..], i) <==> FileAt(t, dirs, i + 1)
      {
        assert dirs[..i + 1][1..] == dirs[1..][..i];
      }
      assert FileAt(t, dirs, 0) <==> k in t.files && k !in t.subdirs;
      if i :| 0 <= i < |dirs| && FileAt(t, dirs, i) {
        if i > 0 { assert FileAt(child, dirs[1..], i - 1); }
      }
    }
  }

  ghost predicate FileAt(t: Tree, dirs: Path, i: nat)
    requires i < |dirs|
  {
    match GetAt(t, dirs[..i])
    case None => false
    case Some(d) => dirs[i] in d.files && dirs[i] !in d.subdirs
  }

  /** The whole command: the parents of the path are there, and the top keeps or gets its metadata. */
  lemma EnsureParentsMakes(st: Store, t: Tree, p: Path, path: Path, meta: Checksum)
    requires path != [] && Interpret(st, t, EnsureParents(p, path, meta)).1 == Replied(FoundDir)
    ensures var t' := Interpret(st, t, EnsureParents(p, path, meta)).0;
            && GetAt(t, p).Some? && GetAt(t', p + path[..|path| - 1]).Some?
            && GetAt(t', p).Some?
            && GetAt(t', p).value.meta == if GetAt(t, p).value.meta.Some? then GetAt(t, p).value.meta else Some(meta)
  {
    var d := GetAt(t, p).value;
    var dirs := Parents(path);
    ParentsAre(path);
    assert dirs == path[..|path| - 1];
    var d' := MakeDirs(Stamped(d, meta), dirs, meta).value;
    MakeDirsMakes(Stamped(d, meta), dirs, meta, |dirs|);
    MakeDirsMakes(Stamped(d, meta), dirs, meta, 0);
    assert dirs[..|dirs|] == dirs && dirs[..0] == [] && p + [] == p;
    GetPut(t, p, d', dirs);
    GetPut(t, p, d', []);
  }

  // --- commits ------------------------------------------------------------------------------

  /** A commit works exactly if every directory of the tree, the top included, has metadata. */
  lemma CommitIff(st: Store, t: Tree)
    ensures CommitOf(st, t).Committed? <==>
            forall p :: GetAt(t, p).Some? ==> GetAt(t, p).value.meta.Some?
  {
    hide ContentsHash;
    assert GetAt(t, []) == Some(t);
    if t.meta.Some? && Complete(t) {
      forall p | GetAt(t, p).Some?
        ensures GetAt(t, p).value.meta.Some?
      {
        if p != [] { CompleteBelow(t, p); }
      }
    } else {
      var p: Path := [];
      if t.meta.Some? { p := IncompleteAt(t); }
      assert GetAt(t, p).Some? && GetAt(t, p).value.meta == None;
    }
  }

  lemma {:induction false} CompleteBelow(t: Tree, p: Path)
    requires Complete(t) && p != [] && GetAt(t, p).Some?
    ensures GetAt(t, p).value.meta.Some?
    decreases |p|
  {
    if p[1..] != [] {
      CompleteBelow(t.subdirs[p[0]], p[1..]);
    } else {
      assert GetAt(t, p) == Some(t.subdirs[p[0]]);
    }
  }

  lemma {:induction false} IncompleteAt(t: Tree) returns (p: Path)
    requires !Complete(t)
    ensures GetAt(t, p).Some? && GetAt(t, p).value.meta == None
    decreases t
  {
    var k :| k in t.subdirs && !(t.subdirs[k].meta.Some? && Complete(t.subdirs[k]));
    if t.subdirs[k].meta == None {
      p := [k];
      assert p[1..] == [] && GetAt(t, p) == Some(t.subdirs[k]);
    } else {
      var q := IncompleteAt(t.subdirs[k]);
      p := [k] + q;
      assert p[1..] == q;
    }
  }

  /** Loading what was committed gives the tree back. */
  lemma CommitResolves(st: Store, t: Tree, c: Checksum, m: Checksum)
    requires st.Valid() && CommitOf(st, t) == Committed(c, m) && c in st.objects
    ensures Resolve(st, c, m) == t
  {
    ResolveHash(st, c, m);
    ContentsHashInjective(st, Resolve(st, c, m), t);
  }
}
