/** The in-memory modifiable tree of src/libostree/ostree-mutable-tree.c. */
module MutableTrees {
  import opened Options
  import opened DirTrees
  import opened TreePaths
  import opened TreeCommands
  import opened Worlds
  import opened WorldEdits
  import opened WorldSteps
  import opened LazyMarks
  import opened TreeSteps

  class MutableTree {
    var parent: MutableTree?
    var state: LoadState
    var contents: Option<Checksum>
    var meta: Option<Checksum>
    var files: map<Name, Checksum>
    var subdirs: map<Name, MutableTree>
    ghost var depth: nat

    ghost function Data(): Node<MutableTree>
      reads this
    {
      Node(AsOption(parent), state, contents, meta, files, subdirs, depth)
    }

    constructor New()
      ensures Data() == Node(None, Whole, None, None, map[], map[], 0)
    {
      parent, state, contents, meta, files, subdirs, depth := null, Whole, None, None, map[], map[], 0;
    }

    constructor NewFromChecksum(repo: Repo, c: Checksum, m: Checksum)
      ensures Data() == Node(None, Lazy(repo), Some(c), Some(m), map[], map[], 0)
    {
      parent, state, contents, meta, files, subdirs, depth := null, Lazy(repo), Some(c), Some(m), map[], map[], 0;
    }

    method InsertChild(name: Name, child: MutableTree)
      requires child.parent == null && child != this
      modifies this`subdirs, child`parent, child`depth
      ensures subdirs == old(subdirs)[name := child]
      ensures child.parent == this && child.depth == depth + 1
    {
      subdirs := subdirs[name := child];
      child.parent := this;
      child.depth := depth + 1;
    }

    // Assignments to one field, as changes of the snapshot.

    method StoreContents(c: Option<Checksum>, ghost S: set<MutableTree>)
      requires this in S
      modifies this`contents
      ensures contents == c && Snap(S) == old(Snap(S))[this := old(Data()).(contents := c)]
    {
      contents := c;
    }

    method StoreState(s: LoadState, ghost S: set<MutableTree>)
      requires this in S
      modifies this`state
      ensures old(Linked(S)) ==> Linked(S)
      ensures state == s && Snap(S) == old(Snap(S))[this := old(Data()).(state := s)]
    {
      state := s;
    }

    method StoreMeta(m: Option<Checksum>, ghost S: set<MutableTree>)
      requires this in S
      modifies this`meta
      ensures meta == m && Snap(S) == old(Snap(S))[this := old(Data()).(meta := m)]
    {
      meta := m;
    }

    method StoreFiles(f: map<Name, Checksum>, ghost S: set<MutableTree>)
      requires this in S
      modifies this`files
      ensures old(Linked(S)) ==> Linked(S)
      ensures files == f && Snap(S) == old(Snap(S))[this := old(Data()).(files := f)]
    {
      files := f;
    }

    method StoreSubdirs(d: map<Name, MutableTree>, ghost S: set<MutableTree>)
      requires this in S
      modifies this`subdirs
      ensures subdirs == d && Snap(S) == old(Snap(S))[this := old(Data()).(subdirs := d)]
    {
      subdirs := d;
    }

    method StoreNoParent(ghost S: set<MutableTree>)
      requires this in S
      modifies this`parent
      ensures parent == null && Snap(S) == old(Snap(S))[this := old(Data()).(parent := None)]
    {
      parent := null;
    }

    method Invalidate(ghost S: set<MutableTree>)
      requires this in S
      requires Linked(S)
      modifies S`contents
      ensures Snap(S) == ClearUp(old(Snap(S)), this) && contents == None
    {
      var cur: MutableTree? := this;
      while cur != null
        invariant cur != null ==> cur in S
        invariant cur == this || contents == None
        invariant ClearUp(old(Snap(S)), this) == if cur == null then Snap(S) else ClearUp(Snap(S), cur)
        decreases if cur == null then 0 else 1 + cur.depth
      {
        if cur.contents == None {
          break;
        }
        cur.StoreContents(None, S);
        cur := cur.parent;
      }
    }

    /** Whether making the node whole can fail: its object is missing from its repository. */
    predicate Unloadable()
      reads this
    {
      state.Lazy? && contents.Some? && contents.value !in state.repo
    }

    /** Fill the tables of a lazy node from its dirtree object. */
    /** Enters a fresh child that names its object and is loaded from the same repository. */
    method InsertLazyChild(name: Name, e: DirEntry)
      requires state.Lazy?
      modifies this`subdirs
      ensures name in subdirs && fresh(subdirs[name]) && subdirs == old(subdirs)[name := subdirs[name]]
      ensures subdirs[name].Data() == LazyChild(this, Data(), e)
    {
      var child := new MutableTree.NewFromChecksum(state.repo, e.contents, e.meta);
      InsertChild(name, child);
    }

    method Populate(obj: DirTree)
      requires state.Lazy? && contents.Some? && meta.Some? && files == map[] && subdirs == map[]
      modifies this
      ensures Data() == old(Data()).(state := Whole, files := obj.files, subdirs := subdirs)
      ensures subdirs.Keys == obj.subdirs.Keys
      ensures forall k :: k in subdirs ==>
                            fresh(subdirs[k]) && subdirs[k].Data() == LazyChild(this, old(Data()), obj.subdirs[k])
      ensures forall j, k :: j in subdirs && k in subdirs && subdirs[j] == subdirs[k] ==> j == k
    {
      files := obj.files;
      var pending := obj.subdirs.Keys;
      while pending != {}
        modifies this`subdirs
        invariant pending <= obj.subdirs.Keys && subdirs.Keys == obj.subdirs.Keys - pending
        invariant forall k :: k in subdirs ==>
                                fresh(subdirs[k]) && subdirs[k].Data() == LazyChild(this, old(Data()), obj.subdirs[k])
        invariant forall j, k :: j in subdirs && k in subdirs && subdirs[j] == subdirs[k] ==> j == k
      {
        var name :| name in pending;
        InsertLazyChild(name, obj.subdirs[name]);
        pending := pending - {name};
      }
      state := Whole;
    }

    method Load(obj: DirTree, ghost S: set<MutableTree>) returns (ghost S': set<MutableTree>)
      requires this in S && state.Lazy? && contents.Some? && meta.Some? && files == map[] && subdirs == map[]
      modifies this
      ensures S <= S' && fresh(S' - S) && state.Whole?
      ensures IsLoaded(old(Snap(S)), Snap(S'), this, obj, subdirs)
      ensures contents == old(contents) && meta == old(meta) && parent == old(parent)
      ensures forall n :: n in S' - S ==> n.state == old(state)
      ensures forall k :: k in subdirs ==> subdirs[k].state.Lazy?
    {
      Populate(obj);
      S' := S + subdirs.Values;
    }

    method MakeWhole(ghost S: set<MutableTree>, ghost st: Store) returns (ok: bool, ghost S': set<MutableTree>)
      requires this in S && Inv(st, Snap(S))
      modifies this
      ensures S <= S' && fresh(S' - S)
      ensures ok == !old(Unloadable())
      ensures ok ==> state.Whole?
      ensures !ok ==> S' == S && unchanged(this)
      ensures old(state.Whole?) ==> S' == S && unchanged(this)
      ensures ok && old(state.Lazy?) ==> forall k :: k in subdirs ==> subdirs[k].state.Lazy?
      ensures ok ==> Marked(old(Snap(S)), Snap(S'), this, LOAD)
      ensures Unedited(st, old(Snap(S)), Snap(S'))
      ensures contents == old(contents) && meta == old(meta) && parent == old(parent)
      ensures old(Served(S, st)) ==> Served(S', st)
    {
      hide Inv, Unedited, IsLoaded, Marked;
      ghost var w := Snap(S);
      LoadableFacts(st, w, this);
      InvShape(st, w);
      if state.Whole? {
        MarkedNothing(w, w, this, LOAD);
        return true, S;
      }
      if contents.value !in state.repo {
        return false, S;
      }
      var obj := state.repo[contents.value];
      S' := Load(obj, S);
      LoadKeeps(st, w, Snap(S'), this, obj, subdirs);
      MarkedLoad(w, Snap(S'), this, obj, subdirs);
      ok := true;
    }

    method ReplaceFile(name: Name, checksum: Checksum, ghost S: set<MutableTree>, ghost st: Store)
      returns (reply: Reply, ghost S': set<MutableTree>)
      requires this in S && Inv(st, Snap(S))
      modifies S
      ensures S <= S' && fresh(S' - S)
      ensures old(Served(S, st)) ==> Served(S', st) && reply != LoadFailed
      ensures reply == LoadFailed <==> ValidName(name) && old(Unloadable())
      ensures reply == LoadFailed ==> S' == S && Snap(S) == old(Snap(S))
      ensures reply != LoadFailed ==>
                Performed(st, old(Snap(S)), Snap(S'), this, Op.ReplaceFile(name, checksum), reply)
    {
      hide Inv, Abs, Edited, Unedited, Performed, ClearUp;
      ghost var op := Op.ReplaceFile(name, checksum);
      ghost var w := Snap(S);
      LoadableFacts(st, w, this);
      if !ValidName(name) {
        PerformedNothing(st, w, this, op, InvalidName);
        return InvalidName, S;
      }
      var ok;
      ok, S' := MakeWhole(S, st);
      if !ok {
        return LoadFailed, S;
      }
      ghost var w1 := Snap(S');
      UneditedFacts(st, w, w1);
      AbsWhole(st, w1, this);
      if name in subdirs {
        PerformedNothing(st, w1, this, op, IsDirectory);
        PerformedAfter(st, w, w1, w1, this, op, IsDirectory);
        return IsDirectory, S';
      }
      WriteEntry(name, checksum, S', st);
      PerformedAfter(st, w, w1, Snap(S'), this, op, Done);
      return Done, S';
    }

    method WriteEntry(name: Name, checksum: Checksum, ghost S: set<MutableTree>, ghost st: Store)
      requires this in S && Inv(st, Snap(S)) && state.Whole? && ValidName(name) && name !in subdirs
      modifies S`contents, this`files
      ensures Performed(st, old(Snap(S)), Snap(S), this, Op.ReplaceFile(name, checksum), Done)
    {
      hide Inv, Performed, ClearUp, Linked;
      LinkedByShape(S, st);
      ReplaceFileStep(st, Snap(S), this, name, checksum);
      Invalidate(S);
      StoreFiles(files[name := checksum], S);
    }

    method Remove(name: Name, allowNoent: bool, ghost S: set<MutableTree>, ghost st: Store)
      returns (reply: Reply, ghost S': set<MutableTree>)
      requires this in S && Inv(st, Snap(S))
      modifies S
      ensures S <= S' && fresh(S' - S)
      ensures old(Served(S, st)) ==> Served(S', st) && reply != LoadFailed
      ensures reply == LoadFailed <==> ValidName(name) && old(Unloadable())
      ensures reply == LoadFailed ==> S' == S && Snap(S) == old(Snap(S))
      ensures reply != LoadFailed ==>
                Performed(st, old(Snap(S)), Snap(S'), this, Op.Remove(name, allowNoent), reply)
    {
      hide Inv, Abs, Edited, Unedited, Performed, ClearUp, WithoutChild, Linked;
      ghost var op := Op.Remove(name, allowNoent);
      ghost var w := Snap(S);
      LoadableFacts(st, w, this);
      if !ValidName(name) {
        PerformedNothing(st, w, this, op, InvalidName);
        return InvalidName, S;
      }
      var ok;
      ok, S' := MakeWhole(S, st);
      if !ok {
        return LoadFailed, S;
      }
      ghost var w1 := Snap(S');
      UneditedFacts(st, w, w1);
      AbsWhole(st, w1, this);
      if name !in files && name !in subdirs {
        reply := if allowNoent then Done else NoEntry;
        PerformedNothing(st, w1, this, op, reply);
      } else {
        reply := Done;
        RemoveEntry(name, allowNoent, S', st);
      }
      PerformedAfter(st, w, w1, Snap(S'), this, op, reply);
    }

    method RemoveEntry(name: Name, ghost allowNoent: bool, ghost S: set<MutableTree>, ghost st: Store)
      requires this in S && Inv(st, Snap(S)) && state.Whole? && ValidName(name) && (name in files || name in subdirs)
      modifies S
      ensures Performed(st, old(Snap(S)), Snap(S), this, Op.Remove(name, allowNoent), Done)
      ensures old(Served(S, st)) ==> Served(S, st)
    {
      hide Inv, Performed, ClearUp, Linked, WithoutChild;
      ghost var w := Snap(S);
      LinkedByShape(S, st);
      if name in files {
        RemoveFileStep(st, w, this, name);
        StoreFiles(files - {name}, S);
      } else {
        RemoveDirStep(st, w, this, name);
        DropChild(name, S, st);
      }
      Invalidate(S);
    }

    /** Take an entry out of the table; the child loses its parent link. */
    method DropChild(name: Name, ghost S: set<MutableTree>, ghost st: Store)
      requires this in S && name in subdirs && subdirs[name] in S && subdirs[name] != this && Linked(S)
      modifies this, subdirs[name]
      ensures Snap(S) == WithoutChild(old(Snap(S)), this, name) && Linked(S)
      ensures old(Served(S, st)) ==> Served(S, st)
    {
      var child := subdirs[name];
      StoreSubdirs(subdirs - {name}, S);
      child.StoreNoParent(S);
    }

    method SetMetadata(checksum: Checksum, ghost S: set<MutableTree>)
      requires this in S
      requires Linked(S)
      modifies S`contents, this`meta
      ensures Snap(S) == WithMeta(old(Snap(S)), this, checksum) && Linked(S)
    {
      hide ClearUp;
      if meta == Some(checksum) {
        return;
      }
      if parent != null {
        parent.Invalidate(S);
      }
      StoreMeta(Some(checksum), S);
    }

    /** A new empty subdirectory; the caches it makes stale are dropped first. */
    method CreateChild(name: Name, m: Option<Checksum>, ghost S: set<MutableTree>)
      returns (child: MutableTree, ghost S': set<MutableTree>)
      requires this in S
      requires Linked(S)
      modifies S`contents, this`subdirs
      ensures fresh(child) && S' == S + {child} && child.state.Whole?
      ensures name in subdirs && subdirs[name] == child
      ensures this in ClearUp(old(Snap(S)), this)
      ensures Snap(S') == WithChild(ClearUp(old(Snap(S)), this), this, name, child, m)
    {
      hide ClearUp;
      child := new MutableTree.New();
      child.meta := m;
      Invalidate(S);
      assert this in Snap(S);
      S' := AttachChild(name, child, S);
    }

    method AttachChild(name: Name, child: MutableTree, ghost S: set<MutableTree>) returns (ghost S': set<MutableTree>)
      requires this in S && child !in S
      requires child.Data() == Node(None, Whole, None, child.meta, map[], map[], 0)
      modifies this`subdirs, child`parent, child`depth
      ensures S' == S + {child} && name in subdirs && subdirs[name] == child
      ensures Snap(S') == WithChild(old(Snap(S)), this, name, child, child.meta)
    {
      InsertChild(name, child);
      S' := S + {child};
    }

    method EnsureDir(name: Name, ghost S: set<MutableTree>, ghost st: Store)
      returns (reply: Reply, out: MutableTree?, ghost S': set<MutableTree>)
      requires this in S && Inv(st, Snap(S))
      modifies S
      ensures S <= S' && fresh(S' - S)
      ensures old(Served(S, st)) ==> Served(S', st) && reply != LoadFailed
      ensures reply == LoadFailed <==> ValidName(name) && old(Unloadable())
      ensures reply == LoadFailed ==> S' == S && Snap(S) == old(Snap(S))
      ensures reply != LoadFailed ==> Performed(st, old(Snap(S)), Snap(S'), this, Op.EnsureDir(name), reply)
      ensures reply == FoundDir ==> name in subdirs && subdirs[name] == out
    {
      hide Inv, Abs, Edited, Unedited, Performed, ClearUp, WithChild, Marked, Linked;
      ghost var op := Op.EnsureDir(name);
      ghost var w := Snap(S);
      LoadableFacts(st, w, this);
      if !ValidName(name) {
        PerformedNothing(st, w, this, op, InvalidName);
        return InvalidName, null, S;
      }
      var ok;
      ok, S' := MakeWhole(S, st);
      if !ok {
        return LoadFailed, null, S;
      }
      ghost var w1 := Snap(S');
      UneditedFacts(st, w, w1);
      AbsWhole(st, w1, this);
      if name in files {
        PerformedNothing(st, w1, this, op, IsFile);
        PerformedAfter(st, w, w1, w1, this, op, IsFile);
        return IsFile, null, S';
      }
      reply := FoundDir;
      if name in subdirs {
        out := subdirs[name];
        PerformedNothing(st, w1, this, op, FoundDir);
      } else {
        LinkedByShape(S', st);
        out, S' := CreateChild(name, None, S');
        EnsureDirStep(st, w1, this, name, out);
      }
      PerformedAfter(st, w, w1, Snap(S'), this, op, FoundDir);
    }

    method Lookup(name: Name, ghost S: set<MutableTree>, ghost st: Store)
      returns (reply: Reply, out: MutableTree?, ghost S': set<MutableTree>)
      requires this in S && Inv(st, Snap(S))
      modifies this
      ensures S <= S' && fresh(S' - S)
      ensures old(Served(S, st)) ==> Served(S', st) && reply != LoadFailed
      ensures reply == LoadFailed <==> old(Unloadable())
      ensures Unedited(st, old(Snap(S)), Snap(S'))
      ensures reply != LoadFailed ==> Performed(st, old(Snap(S)), Snap(S'), this, Op.Lookup(name), reply)
      ensures reply == FoundDir ==> name in subdirs && subdirs[name] == out
    {
      hide Inv, Abs, Edited, Unedited, Performed, ClearUp;
      ghost var w := Snap(S);
      LoadableFacts(st, w, this);
      var ok;
      ok, S' := MakeWhole(S, st);
      if !ok {
        return LoadFailed, null, S';
      }
      ghost var w1 := Snap(S');
      UneditedFacts(st, w, w1);
      AbsWhole(st, w1, this);
      out := null;
      if name in subdirs {
        reply, out := FoundDir, subdirs[name];
      } else {
        reply := if name in files then FoundFile(files[name]) else NoEntry;
      }
      PerformedNothing(st, w1, this, Op.Lookup(name), reply);
      PerformedAfter(st, w, w1, w1, this, Op.Lookup(name), reply);
    }

    method Walk(path: Path, start: nat, ghost S: set<MutableTree>, ghost st: Store)
      returns (reply: Reply, out: MutableTree?, ghost S': set<MutableTree>)
      requires start < |path|
      requires this in S && Inv(st, Snap(S))
      modifies S
      ensures S <= S' && fresh(S' - S)
      ensures Walked(st, old(Snap(S)), Snap(S'), this, path[start..|path| - 1], reply, AsOption(out))
      ensures reply == FoundDir ==> out != null && out in S'
      ensures reply == FoundDir ==> (out.state.Lazy? <==> LazyAt(old(Snap(S)), this, path[start..|path| - 1]))
      ensures old(Served(S, st)) ==> reply != LoadFailed && Served(S', st)
      decreases |path| - start
    {
      hide Inv, Abs, Edited, Unedited, Walked, LazyAt;
      ghost var w := Snap(S);
      ghost var rest := path[start..|path| - 1];
      if start == |path| - 1 {
        WalkedHere(st, w, this);
        LazyHere(w, this);
        return FoundDir, this, S;
      }
      LoadableFacts(st, w, this);
      var ok;
      ok, S' := MakeWhole(S, st);
      if !ok {
        WalkedStuck(st, w, this, rest);
        return LoadFailed, null, S;
      }
      ghost var w1 := Snap(S');
      var name := path[start];
      if name !in subdirs {
        WalkedIntoNothing(st, w, w1, this, rest);
        return NoEntry, null, S';
      }
      UneditedFacts(st, w, w1);
      ChildIsNode(st, w1, this, name);
      LazyOn(st, w, w1, this, rest);
      reply, out, S' := subdirs[name].Walk(path, start + 1, S', st);
      assert rest[1..] == path[start + 1..|path| - 1];
      WalkedOn(st, w, w1, Snap(S'), this, rest, reply, AsOption(out));
    }

    method EnsureParentDirs(path: Path, m: Checksum, ghost S: set<MutableTree>, ghost st: Store)
      returns (reply: Reply, out: MutableTree?, ghost S': set<MutableTree>)
      requires this in S && Inv(st, Snap(S))
      modifies S
      ensures S <= S' && fresh(S' - S)
      ensures ParentsEnsured(st, old(Snap(S)), Snap(S'), this, Parents(path), m, reply, AsOption(out))
      ensures reply == FoundDir ==> out != null && out in S'
      ensures reply == FoundDir && path != [] ==> At(Snap(S'), this, path[..|path| - 1]) == Some(out)
      ensures reply == FoundDir && path == [] ==> out == this
      ensures old(Served(S, st)) ==> reply != LoadFailed && Served(S', st)
    {
      hide Inv, Abs, Unedited, RootStamped, Dug, ParentsEnsured, Linked, WithMeta;
      ghost var w := Snap(S);
      LoadableFacts(st, w, this);
      var ok;
      ok, S' := MakeWhole(S, st);
      if !ok {
        EnsuredByFailing(st, w, this, Parents(path), m);
        return LoadFailed, null, S';
      }
      UneditedFacts(st, w, Snap(S'));
      LinkedByShape(S', st);
      RootStampedNow(st, w, Snap(S'), this, m);
      if meta == None {
        SetMetadata(m, S');
      }
      ghost var w0 := Snap(S');
      RootStampedInv(st, w, w0, this, m);
      reply, out, S' := DigDirs(path, m, S', st);
      EnsuredByDigging(st, w, w0, Snap(S'), this, Parents(path), m, reply, AsOption(out));
      if reply == FoundDir { EnsuredPath(st, w, Snap(S'), this, path, m, AsOption(out)); }
    }

    /** One round of the loop: into a directory that is there, or into one made for the purpose. */
    method Enter(name: Name, m: Checksum, ghost S: set<MutableTree>, ghost st: Store,
                 ghost w0: World<MutableTree>, ghost root: MutableTree, ghost dirs: Path, ghost i: nat, ghost made: bool)
      returns (ok: bool, next: MutableTree, ghost S': set<MutableTree>, ghost made': bool)
      requires this in S && i < |dirs| && dirs[i] == name && name !in files
      requires Descended(st, w0, Snap(S), root, dirs, i, m, this, made)
      modifies S
      ensures S <= S' && fresh(S' - S) && next in S'
      ensures ok ==> Descended(st, w0, Snap(S'), root, dirs, i + 1, m, next, made')
      ensures !ok ==> Dug(st, w0, Snap(S'), root, dirs, m, LoadFailed, None)
      ensures old(Served(S, st)) ==> ok && Served(S', st)
    {
      hide Inv, Unedited, Dug, Descended, Linked, ClearUp, WithChild;
      ghost var w := Snap(S);
      DescendedFacts(st, w0, w, root, dirs, i, m, this, made);
      if name in subdirs {
        next := subdirs[name];
        LoadableFacts(st, w, next);
        ok, S' := next.MakeWhole(S, st);
        made' := made;
        if ok {
          DescendedOn(st, w0, w, Snap(S'), root, dirs, i, m, this);
        } else {
          DugToFailure(st, w0, w, root, dirs, i, m, this);
        }
      } else {
        LinkedByShape(S, st);
        next, S' := CreateChild(name, Some(m), S);
        DescendedCreating(st, w0, w, root, dirs, i, m, this, made, next);
        ok, made' := true, true;
      }
    }

    method DigDirs(path: Path, m: Checksum, ghost S: set<MutableTree>, ghost st: Store)
      returns (reply: Reply, out: MutableTree?, ghost S': set<MutableTree>)
      requires this in S && state.Whole? && Inv(st, Snap(S))
      modifies S
      ensures S <= S' && fresh(S' - S)
      ensures Dug(st, old(Snap(S)), Snap(S'), this, Parents(path), m, reply, AsOption(out))
      ensures reply == FoundDir ==> out != null && out in S'
      ensures old(Served(S, st)) ==> reply != LoadFailed && Served(S', st)
    {
      hide Inv, Unedited, Dug, Descended, Linked, ClearUp, WithChild;
      ghost var w0, dirs := Snap(S), Parents(path);
      ghost var created := false;
      DescendedFrom(st, w0, this, dirs, m);
      S' := S;
      var subdir, i := this, 0;
      while i + 1 < |path|
        invariant i <= |dirs| && S <= S' && fresh(S' - S) && subdir in S'
        invariant Descended(st, w0, Snap(S'), this, dirs, i, m, subdir, created)
        invariant old(Served(S, st)) ==> Served(S', st)
      {
        var name := path[i];
        ghost var w := Snap(S');
        DescendedFacts(st, w0, w, this, dirs, i, m, subdir, created);
        if name in subdir.files {
          DugToFile(st, w0, w, this, dirs, i, m, subdir, created);
          return IsFile, null, S';
        }
        var ok, next;
        ok, next, S', created := subdir.Enter(name, m, S', st, w0, this, dirs, i, created);
        if !ok {
          return LoadFailed, null, S';
        }
        subdir, i := next, i + 1;
      }
      DugToEnd(st, w0, Snap(S'), this, dirs, m, subdir, created);
      return FoundDir, subdir, S';
    }

    method FillEmpty(repo: Repo, c: Checksum, m: Checksum, ghost S: set<MutableTree>, ghost st: Store) returns (ok: bool)
      requires this in S && Inv(st, Snap(S)) && st.Valid() && st.Serves(repo) && c in st.objects
      modifies S
      ensures ok == FillsFrom(old(Data()), c)
      ensures !ok ==> Snap(S) == old(Snap(S))
      ensures ok ==> FilledIn(st, old(Snap(S)), Snap(S), this, c, m)
      ensures forall x :: x in S ==> x.state == old(x.state) || x.state == Lazy(repo)
    {
      hide Inv, FilledIn, Filled, WithMeta, Linked;
      ghost var w := Snap(S);
      LinkedByShape(S, st);
      if state.Lazy? {
        if contents != Some(c) && contents != Some(EMPTY_TREE_CSUM) {
          if c != EMPTY_TREE_CSUM {
            return false;
          }
          FilledByNothing(st, w, this, repo, m);
          StoreState(Lazy(repo), S);
          SetMetadata(m, S);
          return true;
        }
      } else if files != map[] || subdirs != map[] {
        return false;
      }
      FilledByNaming(st, w, this, repo, c, m);
      NameContents(repo, c, m, S);
      return true;
    }

    /** The node becomes lazy and names the given object. */
    method NameContents(repo: Repo, c: Checksum, m: Checksum, ghost S: set<MutableTree>)
      requires this in S && Linked(S)
      modifies S`contents, this`state, this`meta
      ensures state == Lazy(repo) && Snap(S) == Filled(old(Snap(S)), this, repo, c, m)
    {
      hide ClearUp, WithMeta, Linked;
      StoreState(Lazy(repo), S);
      SetMetadata(m, S);
      ghost var w := Snap(S);
      assert this in w && w[this].contents == contents;
      if contents != Some(c) {
        Invalidate(S);
        StoreContents(Some(c), S);
      }
    }

    /** The caller's duty: `checksum` is the true hash, and the children have theirs. */
    method SetContents(checksum: Checksum, ghost S: set<MutableTree>, ghost st: Store)
      requires this in S && Inv(st, Snap(S))
      requires Complete(Abs(st, Snap(S), this)) && checksum == ContentsHash(st, Abs(st, Snap(S), this))
      requires forall k :: k in subdirs ==> subdirs[k] in S && subdirs[k].contents.Some?
      modifies this`contents
      ensures contents == Some(checksum) && Unedited(st, old(Snap(S)), Snap(S))
      ensures CachesAdded(old(Snap(S)), Snap(S))
    {
      hide Inv, Abs, Unedited;
      ghost var w := Snap(S);
      LoadableFacts(st, w, this);
      if contents == Some(checksum) {
        return;
      }
      if contents.Some? {
        CacheIsRight(st, w, this);
        assert false;
      }
      SetContentsStep(st, w, this, checksum);
      StoreContents(Some(checksum), S);
    }

    /**
     Write the tree bottom-up, using every checksum that is cached.  The result is that of
     hashing the whole tree from scratch.
     */
    method WriteTree(hash: DirTree -> Checksum, ghost S: set<MutableTree>, ghost st: Store) returns (r: Commit)
      requires this in S && Inv(st, Snap(S)) && hash == st.hash
      modifies S`contents
      ensures Unedited(st, old(Snap(S)), Snap(S)) && CachesAdded(old(Snap(S)), Snap(S))
      ensures r == CommitOf(st, Abs(st, old(Snap(S)), this))
      ensures r.Committed? ==> contents == Some(r.contents) && meta == Some(r.meta)
      decreases Below(Snap(S), this), 1
    {
      hide Inv, Abs, Unedited, Below, CommitOf, Written, CachesAdded;
      ghost var w := Snap(S);
      LoadableFacts(st, w, this);
      CommitFacts(st, w, this);
      if meta == None {
        return NoMetadata;
      }
      if contents.Some? {
        return Committed(contents.value, meta.value);
      }
      var ok, entries := WriteChildren(hash, S, st);
      if !ok {
        return NoMetadata;
      }
      ghost var w1 := Snap(S);
      UneditedFacts(st, w, w1);
      WrittenAll(st, w1, this, entries);
      var checksum := hash(DirTree(files, entries));
      SetContents(checksum, S, st);
      UneditedTwice(st, w, w1, Snap(S));
      CachesAddedTwice(w, w1, Snap(S));
      return Committed(checksum, meta.value);
    }

    /** Write all subdirectories and collect their checksums. */
    method WriteChildren(hash: DirTree -> Checksum, ghost S: set<MutableTree>, ghost st: Store)
      returns (ok: bool, entries: map<Name, DirEntry>)
      requires this in S && Inv(st, Snap(S)) && hash == st.hash && state.Whole?
      modifies S`contents
      ensures Unedited(st, old(Snap(S)), Snap(S)) && CachesAdded(old(Snap(S)), Snap(S))
      ensures ok ==> entries.Keys == subdirs.Keys && Written(Snap(S), this, entries)
      ensures !ok ==> CommitOf(st, Abs(st, old(Snap(S)), this)) == NoMetadata
      decreases Below(Snap(S), this), 0
    {
      hide Inv, Abs, Unedited, Below, CommitOf, Written, CachesAdded;
      ghost var w := Snap(S);
      CommitFacts(st, w, this);
      var pending := subdirs.Keys;
      entries := map[];
      while pending != {}
        invariant pending <= subdirs.Keys && entries.Keys == subdirs.Keys - pending
        invariant Unedited(st, w, Snap(S)) && CachesAdded(w, Snap(S))
        invariant Written(Snap(S), this, entries)
      {
        var name :| name in pending;
        ghost var w1 := Snap(S);
        UneditedFacts(st, w, w1);
        BelowOfChild(st, w, w1, this, name);
        var c := subdirs[name].WriteTree(hash, S, st);
        CommitFailsBelow(st, w1, this, name);
        UneditedTwice(st, w, w1, Snap(S));
        CachesAddedTwice(w, w1, Snap(S));
        if c.NoMetadata? {
          return false, entries;
        }
        WrittenOneMore(w1, Snap(S), this, entries, name, DirEntry(c.contents, c.meta));
        entries := entries[name := DirEntry(c.contents, c.meta)];
        pending := pending - {name};
      }
      return true, entries;
    }
  }

  ghost function AsOption(n: MutableTree?): Option<MutableTree> {
    if n == null then None else var m: MutableTree := n; Some(m)
  }

  /** Parent links stay inside the forest and go up. */
  ghost predicate Linked(S: set<MutableTree>)
    reads S
  {
    forall m :: m in S && m.parent != null ==> m.parent in S && m.parent.depth < m.depth
  }

  /** Every lazy node can be loaded, and so can everything below it. */
  ghost predicate Served(S: set<MutableTree>, st: Store)
    reads S
  {
    forall m :: m in S && m.state.Lazy? ==> m.state.repo == st.objects
  }

  ghost function Snap(S: set<MutableTree>): World<MutableTree>
    reads S
  {
    map n | n in S :: n.Data()
  }

  lemma LoadableFacts(st: Store, w: World<MutableTree>, n: MutableTree)
    requires Inv(st, w) && n in w
    ensures Unedited(st, w, w)
    ensures w[n].state.Lazy? ==>
              && w[n].contents.Some? && w[n].meta.Some? && w[n].files == map[] && w[n].subdirs == map[]
              && w[n].contents.value in st.objects
              && (w[n].contents.value in w[n].state.repo ==> w[n].state.repo[w[n].contents.value] == st.objects[w[n].contents.value])
  {
    assert CacheOk(st, w, n);
  }

  lemma LazyHere(w: World<MutableTree>, n: MutableTree)
    requires n in w
    ensures LazyAt(w, n, []) <==> w[n].state.Lazy?
  {
  }

  lemma LinkedByShape(S: set<MutableTree>, st: Store)
    requires Inv(st, Snap(S))
    ensures Linked(S)
  {
    forall m | m in S && m.parent != null
      ensures m.parent in S && m.parent.depth < m.depth
    {
      assert ShapeAt(Snap(S), m) && ShapeAt(Snap(S), m.parent);
    }
  }

  lemma ChildIsNode(st: Store, w: World<MutableTree>, n: MutableTree, name: Name)
    requires Inv(st, w) && n in w && name in w[n].subdirs
    ensures w[n].subdirs[name] in w
  {
    assert DownOk(w, n);
  }

  lemma RootStampedInv(st: Store, w: World<MutableTree>, w0: World<MutableTree>, n: MutableTree, m: Checksum)
    requires RootStamped(st, w, w0, n, m)
    ensures Inv(st, w0)
  {
  }

  lemma CommitFacts(st: Store, w: World<MutableTree>, n: MutableTree)
    requires Inv(st, w) && n in w
    ensures Unedited(st, w, w) && CachesAdded(w, w) && Written(w, n, map[])
    ensures w[n].meta == None ==> CommitOf(st, Abs(st, w, n)) == NoMetadata
    ensures w[n].meta.Some? && w[n].contents.Some? ==>
              CommitOf(st, Abs(st, w, n)) == Committed(w[n].contents.value, w[n].meta.value)
  {
    AbsMeta(st, w, n);
    if w[n].contents.Some? { CacheIsRight(st, w, n); }
  }
}
