/** Whole runs of a client against a tree that is loaded lazily, cached and edited in place. */
module TreeSessions {
  import opened Options
  import opened DirTrees
  import opened TreePaths
  import opened TreeCommands
  import opened Worlds
  import opened WorldEdits
  import opened LazyMarks
  import opened TreeSteps
  import opened MutableTrees

  /** Between two worlds, the root answered a command as the pure tree does, and loaded as it says. */
  ghost predicate Obeyed(st: Store, w: World<MutableTree>, w': World<MutableTree>, r: MutableTree, cmd: Command, a: Answer) {
    && Inv(st, w) && Inv(st, w') && r in w && r in w'
    && (Abs(st, w', r), a) == Interpret(st, Abs(st, w, r), cmd)
    && LoadedIn(w', r) == LoadedAfter(st, Abs(st, w, r), cmd, LoadedIn(w, r))
  }

  /** After a walk along `path`. */
  ghost predicate Came(st: Store, w: World<MutableTree>, w1: World<MutableTree>, r: MutableTree, path: Path) {
    && Unedited(st, w, w1) && r in w && r in w1
    && LoadedIn(w1, r) == Visited(Abs(st, w, r), path, LoadedIn(w, r))
  }

  /** A command is obeyed at the root if it is answered at the node its path leads to. */
  lemma ObeyedAt(st: Store, w: World<MutableTree>, w1: World<MutableTree>, w2: World<MutableTree>,
                 r: MutableTree, n: MutableTree, cmd: Command, a: Answer)
    requires Came(st, w, w1, r, cmd.path) && Inv(st, w1) && Inv(st, w2) && r in w2 && n in w1 && n in w2
    requires At(w1, r, cmd.path) == Some(n)
    requires Abs(st, w2, r) == PutAt(Abs(st, w1, r), cmd.path, Abs(st, w2, n))
    requires (Abs(st, w2, n), a) == Answered(st, Abs(st, w1, n), cmd)
    requires LoadedIn(w2, r) == LoadedBy(st, Abs(st, w1, n), cmd, LoadedIn(w1, r))
    ensures Obeyed(st, w, w2, r, cmd, a)
  {
    hide Inv, Abs, Unedited, Answered, PutAt, At, LoadedIn, LoadedBy, Visited;
    UneditedFacts(st, w, w1);
    GetAtAbs(st, w1, r, cmd.path, n);
  }

  lemma CameFacts(st: Store, w: World<MutableTree>, w1: World<MutableTree>, r: MutableTree, path: Path)
    requires Came(st, w, w1, r, path)
    ensures Unedited(st, w, w1) && Inv(st, w) && Inv(st, w1) && r in w && r in w1 && Abs(st, w1, r) == Abs(st, w, r)
  {
  }

  lemma ObeyedByEdit(st: Store, w: World<MutableTree>, w1: World<MutableTree>, w2: World<MutableTree>,
                     r: MutableTree, n: MutableTree, cmd: Command, reply: Reply)
    requires Came(st, w, w1, r, cmd.path) && At(w1, r, cmd.path) == Some(n) && cmd.OnDir?
    requires Performed(st, w1, w2, n, cmd.op, reply)
    ensures Obeyed(st, w, w2, r, cmd, Replied(reply))
  {
    hide Inv, Abs, Came, Obeyed, Marked, LoadedIn, At, PutAt, EffectOf, Above, Apply;
    CameFacts(st, w, w1, r, cmd.path);
    assert EditedIn(st, w1, w2, n, r);
    LoadedByEffect(w1, w2, n, EffectOf(cmd.op, Abs(st, w1, n)), r, cmd.path);
    ObeyedAt(st, w, w1, w2, r, n, cmd, Replied(reply));
  }

  lemma DirsFacts(st: Store, w: World<MutableTree>, w': World<MutableTree>, r: MutableTree, n: MutableTree,
                  cmd: Command, reply: Reply, out: Option<MutableTree>)
    requires cmd.EnsureParents? && r in w && At(w, r, cmd.path) == Some(n)
    requires ParentsEnsured(st, w, w', n, Parents(cmd.split), cmd.meta, reply, out) && reply != LoadFailed
    ensures Inv(st, w) && Inv(st, w') && r in w' && n in w && n in w'
    ensures Abs(st, w', r) == PutAt(Abs(st, w, r), cmd.path, Abs(st, w', n))
    ensures (Abs(st, w', n), Replied(reply)) == Answered(st, Abs(st, w, n), cmd)
    ensures LoadedIn(w', r) == LoadedBy(st, Abs(st, w, n), cmd, LoadedIn(w, r))
  {
    hide DirsMarked, LoadedIn, LoadedBy;
    assert WithinIn(st, w, w', n, r);
    DirsLoaded(st, w, w', r, n, cmd);
  }

  lemma DirsLoaded(st: Store, w: World<MutableTree>, w': World<MutableTree>, r: MutableTree, n: MutableTree, cmd: Command)
    requires cmd.EnsureParents? && r in w && At(w, r, cmd.path) == Some(n) && Inv(st, w) && n in w && Inv(st, w') && n in w'
    requires Abs(st, w', n) == Answered(st, Abs(st, w, n), cmd).0 && DirsMarked(st, w, w', n, Parents(cmd.split))
    ensures LoadedIn(w', r) == LoadedBy(st, Abs(st, w, n), cmd, LoadedIn(w, r))
  {
    hide LazyAt, Inv, Abs, Reached, Answered;
    assert DirsMarkedFrom(w, w', Abs(st, w', n), r, cmd.path, Parents(cmd.split));
  }

  lemma ObeyedByDirs(st: Store, w: World<MutableTree>, w1: World<MutableTree>, w2: World<MutableTree>,
                     r: MutableTree, n: MutableTree, cmd: Command, reply: Reply, out: Option<MutableTree>)
    requires Came(st, w, w1, r, cmd.path) && At(w1, r, cmd.path) == Some(n) && cmd.EnsureParents?
    requires ParentsEnsured(st, w1, w2, n, Parents(cmd.split), cmd.meta, reply, out) && reply != LoadFailed
    ensures Obeyed(st, w, w2, r, cmd, Replied(reply))
  {
    hide Inv, Abs, Unedited, ParentsEnsured, Answered, PutAt, At, Obeyed, Came, LoadedIn, LoadedBy;
    CameFacts(st, w, w1, r, cmd.path);
    DirsFacts(st, w1, w2, r, n, cmd, reply, out);
    ObeyedAt(st, w, w1, w2, r, n, cmd, Replied(reply));
  }

  lemma ObeyedByWrite(st: Store, w: World<MutableTree>, w1: World<MutableTree>, w2: World<MutableTree>,
                      r: MutableTree, n: MutableTree, cmd: Command)
    requires Came(st, w, w1, r, cmd.path) && Unedited(st, w1, w2) && CachesAdded(w1, w2)
    requires At(w1, r, cmd.path) == Some(n) && cmd.Write?
    ensures n in w1 && Obeyed(st, w, w2, r, cmd, Wrote(CommitOf(st, Abs(st, w1, n))))
  {
    hide Inv, Abs, Unedited, PutAt, At, Obeyed, CommitOf, Came, LoadedIn, CachesAdded;
    CameFacts(st, w, w1, r, cmd.path);
    UneditedFacts(st, w1, w2);
    GetAtAbs(st, w1, r, cmd.path, n);
    PutBack(Abs(st, w1, r), cmd.path);
    NothingLoaded(st, w1, w2, r);
    ObeyedAt(st, w, w1, w2, r, n, cmd, Wrote(CommitOf(st, Abs(st, w1, n))));
  }

  lemma NothingLoaded(st: Store, w: World<MutableTree>, w': World<MutableTree>, r: MutableTree)
    requires Inv(st, w) && r in w && CachesAdded(w, w')
    ensures LoadedIn(w', r) == LoadedIn(w, r)
  {
    InvShape(st, w);
    MarkedNothing(w, w', r, NO_EFFECT);
    LoadedByEffect(w, w', r, NO_EFFECT, r, []);
  }

  lemma ObeyedByMissing(st: Store, w: World<MutableTree>, w1: World<MutableTree>, r: MutableTree, cmd: Command)
    requires Came(st, w, w1, r, cmd.path)
    requires Inv(st, w) && r in w && GetAt(Abs(st, w, r), cmd.path) == None
    ensures Obeyed(st, w, w1, r, cmd, NoDir)
  {
    hide LoadedIn, Visited, Abs, Inv, Unedited;
    CameFacts(st, w, w1, r, cmd.path);
  }

  lemma WalkFacts(st: Store, w: World<MutableTree>, w': World<MutableTree>, n: MutableTree, path: Path, reply: Reply, out: Option<MutableTree>)
    requires Walked(st, w, w', n, path, reply, out)
    ensures Unedited(st, w, w') && Inv(st, w) && Inv(st, w') && n in w && n in w'
    ensures reply == FoundDir ==> out.Some? && At(w', n, path) == out
    ensures reply == NoEntry ==> GetAt(Abs(st, w, n), path) == None
    ensures reply in {FoundDir, NoEntry, LoadFailed}
    ensures reply != LoadFailed ==> Came(st, w, w', n, path)
  {
    if reply != LoadFailed { WalkLoads(st, w, w', n, path); }
  }

  lemma WalkLoads(st: Store, w: World<MutableTree>, w': World<MutableTree>, n: MutableTree, path: Path)
    requires Inv(st, w) && n in w && WalkMarked(st, w, w', n, path)
    ensures LoadedIn(w', n) == Visited(Abs(st, w, n), path, LoadedIn(w, n))
  {
    hide LazyAt, Inv, Abs, OnWay;
    assert WalkMarkedFrom(w, w', Abs(st, w, n), n, [], path);
  }

  /** One operation on one node, whichever it is. */
  method Perform(n: MutableTree, op: Op, ghost S: set<MutableTree>, ghost st: Store)
    returns (reply: Reply, ghost S': set<MutableTree>)
    requires n in S && Inv(st, Snap(S)) && Served(S, st)
    modifies S
    ensures S <= S' && fresh(S' - S) && Served(S', st)
    ensures Performed(st, old(Snap(S)), Snap(S'), n, op, reply)
  {
    hide Inv, Performed, Linked, Unedited;
    match op
    case ReplaceFile(name, checksum) => reply, S' := n.ReplaceFile(name, checksum, S, st);
    case Remove(name, allowNoent) => reply, S' := n.Remove(name, allowNoent, S, st);
    case EnsureDir(name) => var out; reply, out, S' := n.EnsureDir(name, S, st);
    case Lookup(name) => var out; reply, out, S' := n.Lookup(name, S, st);
    case SetMetadata(checksum) =>
      LinkedByShape(S, st);
      SetMetaStep(st, Snap(S), n, checksum);
      n.SetMetadata(checksum, S);
      reply, S' := Done, S;
  }

  method Obey(root: MutableTree, cmd: Command, hash: DirTree -> Checksum, ghost S: set<MutableTree>, ghost st: Store)
    returns (a: Answer, ghost S': set<MutableTree>)
    requires root in S && Inv(st, Snap(S)) && Served(S, st) && hash == st.hash
    modifies S
    ensures S <= S' && fresh(S' - S) && Served(S', st)
    ensures Obeyed(st, old(Snap(S)), Snap(S'), root, cmd, a)
  {
    hide Inv, Performed, Walked, Unedited, ParentsEnsured, Obeyed, CachesAdded, Abs, Came;
    ghost var w := Snap(S);
    var reply, n;
    reply, n, S' := root.Walk(cmd.path + [""], 0, S, st);
    assert (cmd.path + [""])[0..|cmd.path|] == cmd.path;
    ghost var w1 := Snap(S');
    WalkFacts(st, w, w1, root, cmd.path, reply, AsOption(n));
    if reply == NoEntry {
      ObeyedByMissing(st, w, w1, root, cmd);
      return NoDir, S';
    }
    match cmd
    case OnDir(_, op) =>
      reply, S' := Perform(n, op, S', st);
      ObeyedByEdit(st, w, w1, Snap(S'), root, n, cmd, reply);
      a := Replied(reply);
    case EnsureParents(_, split, meta) =>
      var out;
      reply, out, S' := n.EnsureParentDirs(split, meta, S', st);
      ObeyedByDirs(st, w, w1, Snap(S'), root, n, cmd, reply, AsOption(out));
      a := Replied(reply);
    case Write(_) =>
      var commit := n.WriteTree(hash, S', st);
      ObeyedByWrite(st, w, w1, Snap(S'), root, n, cmd);
      a := Wrote(commit);
  }

  lemma ObeyedFacts(st: Store, w: World<MutableTree>, w': World<MutableTree>, r: MutableTree, cmd: Command, a: Answer)
    requires Obeyed(st, w, w', r, cmd, a)
    ensures Inv(st, w) && Inv(st, w') && r in w && r in w' && (Abs(st, w', r), a) == Interpret(st, Abs(st, w, r), cmd)
  {
  }

  /**
   Laziness and caching are invisible: any run of commands on a lazily loaded tree gives the
   answers and the final tree of the same run on the fully loaded pure tree.  In particular
   every commit on the way is that of hashing the current tree from scratch.
   */
  method Session(root: MutableTree, cmds: seq<Command>, hash: DirTree -> Checksum, ghost S: set<MutableTree>, ghost st: Store)
    returns (answers: seq<Answer>, ghost S': set<MutableTree>)
    requires root in S && Inv(st, Snap(S)) && Served(S, st) && hash == st.hash
    modifies S
    ensures S <= S' && fresh(S' - S) && Inv(st, Snap(S')) && root in Snap(S')
    ensures (Abs(st, Snap(S'), root), answers) == InterpretAll(st, Abs(st, old(Snap(S)), root), cmds)
  {
    hide Inv, Served, Obeyed, Abs, Interpret;
    ghost var t := Abs(st, Snap(S), root);
    answers, S' := [], S;
    for i := 0 to |cmds|
      invariant S <= S' && fresh(S' - S) && Inv(st, Snap(S')) && Served(S', st)
      invariant (Abs(st, Snap(S'), root), answers) == InterpretAll(st, t, cmds[..i])
    {
      ghost var w := Snap(S');
      var a;
      a, S' := Obey(root, cmds[i], hash, S', st);
      ObeyedFacts(st, w, Snap(S'), root, cmds[i], a);
      answers := answers + [a];
      assert cmds[..i + 1][..i] == cmds[..i];
    }
    assert cmds[..|cmds|] == cmds;
  }

  /** A world of one node that has no parent and no children. */
  lemma Alone(st: Store, n: MutableTree, node: Node<MutableTree>)
    requires st.Valid() && node.parent == None && node.subdirs == map[]
    requires match node.state
             case Whole => node.contents == None
             case Lazy(repo) =>
               node.files == map[] && node.contents.Some? && node.meta.Some? && node.contents.value in st.objects && st.Serves(repo)
    ensures Inv(st, map[n := node])
    ensures node.state.Whole? ==> Abs(st, map[n := node], n) == Tree(node.meta, node.files, map[])
    ensures node.state.Lazy? ==> Abs(st, map[n := node], n) == Resolve(st, node.contents.value, node.meta.value)
  {
    var w := map[n := node];
    assert ShapeAt(w, n) && CacheOk(st, w, n);
    if node.state.Whole? { assert Abs(st, w, n).subdirs == map[]; }
  }

  /** A run against a tree opened from a repository without reading any of it first. */
  method SessionFromChecksum(repo: Repo, c: Checksum, m: Checksum, cmds: seq<Command>, hash: DirTree -> Checksum, ghost st: Store)
    returns (answers: seq<Answer>)
    requires st.Valid() && repo == st.objects && c in st.objects && hash == st.hash
    ensures answers == InterpretAll(st, Resolve(st, c, m), cmds).1
  {
    hide Inv, Abs, InterpretAll;
    var root := new MutableTree.NewFromChecksum(repo, c, m);
    Alone(st, root, root.Data());
    assert Snap({root}) == map[root := root.Data()];
    ghost var S';
    answers, S' := Session(root, cmds, hash, {root}, st);
  }

  /** What a node stands for in the reference with marks. */
  ghost function Shown(st: Store, w: World<MutableTree>, r: MutableTree): Reference
    requires Inv(st, w) && r in w
  {
    Reference(Abs(st, w, r), LoadedIn(w, r))
  }

  /** Between two worlds, the root did what the action does to the reference, and said so. */
  ghost predicate Played(st: Store, w: World<MutableTree>, w': World<MutableTree>, r: MutableTree, act: Action, o: Outcome) {
    && Inv(st, w) && Inv(st, w') && r in w && r in w' && (act.Fill? ==> act.contents in st.objects)
    && (Shown(st, w', r), o) == Play(st, Shown(st, w, r), act)
  }

  lemma FilledAt(st: Store, w: World<MutableTree>, w1: World<MutableTree>, w2: World<MutableTree>,
                 r: MutableTree, n: MutableTree, act: Action)
    requires act.Fill? && Came(st, w, w1, r, act.path) && At(w1, r, act.path) == Some(n)
    requires st.Valid() && act.contents in st.objects && n in w1 && FillsFrom(w1[n], act.contents)
    requires w1[n].state.Lazy? <==> act.path !in LoadedIn(w, r)
    requires FilledIn(st, w1, w2, n, act.contents, act.meta)
    ensures Played(st, w, w2, r, act, Merged(true))
  {
    hide Inv, Abs, Unedited, PutAt, At, GetAt, Mergeable, Overlay, Above, FillsFrom, IsEmpty, LoadedIn, Marked, Visited;
    CameFacts(st, w, w1, r, act.path);
    assert EditedIn(st, w1, w2, n, r);
    GetAtAbs(st, w1, r, act.path, n);
    LoadedByEffect(w1, w2, n, UNLOAD, r, act.path);
    FillsIff(st, w1, n, act.contents, act.meta);
  }

  lemma NotFilledAt(st: Store, w: World<MutableTree>, w1: World<MutableTree>, r: MutableTree, n: MutableTree, act: Action)
    requires act.Fill? && Came(st, w, w1, r, act.path) && At(w1, r, act.path) == Some(n)
    requires st.Valid() && act.contents in st.objects && n in w1 && !FillsFrom(w1[n], act.contents)
    requires w1[n].state.Lazy? <==> act.path !in LoadedIn(w, r)
    ensures Played(st, w, w1, r, act, Merged(false))
  {
    hide Inv, Abs, Unedited, PutAt, At, GetAt, FillsFrom, IsEmpty, Mergeable, LoadedIn, Visited;
    CameFacts(st, w, w1, r, act.path);
    GetAtAbs(st, w1, r, act.path, n);
    FillsIff(st, w1, n, act.contents, act.meta);
  }

  lemma NowhereToFill(st: Store, w: World<MutableTree>, w1: World<MutableTree>, r: MutableTree, act: Action)
    requires act.Fill? && Came(st, w, w1, r, act.path) && st.Valid() && act.contents in st.objects
    requires Inv(st, w) && r in w && GetAt(Abs(st, w, r), act.path) == None
    ensures Played(st, w, w1, r, act, Told(NoDir))
  {
    hide LoadedIn, Visited, Abs, Inv, Unedited;
    CameFacts(st, w, w1, r, act.path);
  }

  lemma AskedOf(st: Store, w: World<MutableTree>, w': World<MutableTree>, r: MutableTree, cmd: Command, a: Answer)
    requires Obeyed(st, w, w', r, cmd, a)
    ensures Played(st, w, w', r, Ask(cmd), Told(a))
  {
    hide LoadedIn, LoadedAfter, Abs, Inv, Interpret;
  }

  lemma LoadedIff(w: World<MutableTree>, r: MutableTree, path: Path)
    ensures path in LoadedIn(w, r) <==> !LazyAt(w, r, path)
  {
  }

  /** Any action, filling included. */
  method Act(root: MutableTree, act: Action, repo: Repo, hash: DirTree -> Checksum, ghost S: set<MutableTree>, ghost st: Store)
    returns (o: Outcome, ghost S': set<MutableTree>)
    requires root in S && Inv(st, Snap(S)) && Served(S, st) && hash == st.hash && repo == st.objects
    requires st.Valid() && (act.Fill? ==> act.contents in st.objects)
    modifies S
    ensures S <= S' && fresh(S' - S) && Served(S', st)
    ensures Played(st, old(Snap(S)), Snap(S'), root, act, o)
  {
    hide Inv, Walked, Unedited, Obeyed, Abs, FilledIn, GetAt, At, Played, LazyAt, LoadedIn, Came;
    ghost var w := Snap(S);
    match act
    case Ask(cmd) =>
      var a;
      a, S' := Obey(root, cmd, hash, S, st);
      AskedOf(st, w, Snap(S'), root, cmd, a);
      o := Told(a);
    case Fill(path, contents, meta) =>
      var reply, n;
      reply, n, S' := root.Walk(path + [""], 0, S, st);
      assert (path + [""])[0..|path|] == path;
      ghost var w1 := Snap(S');
      WalkFacts(st, w, w1, root, path, reply, AsOption(n));
      LoadedIff(w, root, path);
      if reply == NoEntry {
        NowhereToFill(st, w, w1, root, act);
        return Told(NoDir), S';
      }
      var ok := n.FillEmpty(repo, contents, meta, S', st);
      if ok {
        FilledAt(st, w, w1, Snap(S'), root, n, act);
      } else {
        NotFilledAt(st, w, w1, root, n, act);
      }
      o := Merged(ok);
  }

  lemma PlayedFacts(st: Store, w: World<MutableTree>, w': World<MutableTree>, r: MutableTree, act: Action, o: Outcome)
    requires Played(st, w, w', r, act, o)
    ensures Inv(st, w) && Inv(st, w') && r in w && r in w' && (Shown(st, w', r), o) == Play(st, Shown(st, w, r), act)
  {
  }

  /**
   Runs of every operation, filling included: all outcomes, the final tree and what of it has been
   loaded are those of the reference with marks. The invariant, so the truth of every cached
   checksum, holds at the end.
   */
  method Compose(root: MutableTree, acts: seq<Action>, repo: Repo, hash: DirTree -> Checksum, ghost S: set<MutableTree>, ghost st: Store)
    returns (os: seq<Outcome>, ghost S': set<MutableTree>)
    requires root in S && Inv(st, Snap(S)) && Served(S, st) && hash == st.hash && repo == st.objects
    requires st.Valid() && Fillable(st, acts)
    modifies S
    ensures S <= S' && fresh(S' - S) && Inv(st, Snap(S')) && root in Snap(S')
    ensures (Shown(st, Snap(S'), root), os) == PlayAll(st, Shown(st, old(Snap(S)), root), acts)
  {
    hide Inv, Served, Played, Shown, Play;
    ghost var g := Shown(st, Snap(S), root);
    os, S' := [], S;
    for i := 0 to |acts|
      invariant S <= S' && fresh(S' - S) && Inv(st, Snap(S')) && Served(S', st)
      invariant (Shown(st, Snap(S'), root), os) == PlayAll(st, g, acts[..i])
    {
      ghost var w := Snap(S');
      var o;
      o, S' := Act(root, acts[i], repo, hash, S', st);
      PlayedFacts(st, w, Snap(S'), root, acts[i], o);
      os := os + [o];
      assert acts[..i + 1][..i] == acts[..i];
    }
    assert acts[..|acts|] == acts;
  }

  /** Opened from a repository, nothing is loaded at first; from there on the run is determined. */
  method ComposeFromChecksum(repo: Repo, c: Checksum, m: Checksum, acts: seq<Action>, hash: DirTree -> Checksum, ghost st: Store)
    returns (os: seq<Outcome>)
    requires st.Valid() && repo == st.objects && c in st.objects && hash == st.hash && Fillable(st, acts)
    ensures os == PlayAll(st, Reference(Resolve(st, c, m), iset{}), acts).1
  {
    hide Inv, Abs, PlayAll, Served;
    var root := new MutableTree.NewFromChecksum(repo, c, m);
    Alone(st, root, root.Data());
    assert Snap({root}) == map[root := root.Data()];
    AllLazy(map[root := root.Data()], root);
    assert Served({root}, st) by { ServedAlone(root, st); }
    ghost var S';
    os, S' := Compose(root, acts, repo, hash, {root}, st);
  }

  lemma AllLazy(w: World<MutableTree>, r: MutableTree)
    requires r in w && w[r].state.Lazy? && w[r].subdirs == map[]
    ensures LoadedIn(w, r) == iset{}
  {
  }

  lemma ServedAlone(n: MutableTree, st: Store)
    requires n.state.Lazy? ==> n.state.repo == st.objects
    ensures Served({n}, st)
  {
  }

  /** After ensure_parent_dirs, walking the same path from its start finds the same node. */
  lemma WalkFindsEnsured(st: Store, w: World<MutableTree>, w1: World<MutableTree>, w2: World<MutableTree>, n: MutableTree,
                         dirs: Path, meta: Checksum, out: Option<MutableTree>, reply: Reply, found: Option<MutableTree>)
    requires ParentsEnsured(st, w, w1, n, dirs, meta, FoundDir, out)
    requires Walked(st, w1, w2, n, dirs, reply, found)
    ensures reply == FoundDir && found == out
  {
  }

  /** Ensuring the parents of a path and walking it from its start return the same node. */
  method EnsureThenWalk(n: MutableTree, path: Path, m: Checksum, ghost S: set<MutableTree>, ghost st: Store)
    returns (reply: Reply, parent: MutableTree?, found: MutableTree?, ghost S': set<MutableTree>)
    requires n in S && Inv(st, Snap(S)) && Served(S, st) && path != []
    modifies S
    ensures S <= S' && fresh(S' - S) && Inv(st, Snap(S')) && n in Snap(S')
    ensures reply == FoundDir ==> parent != null && found == parent
    ensures reply == FoundDir ==> GetAt(Abs(st, Snap(S'), n), path[..|path| - 1]).Some?
  {
    hide Inv, Abs, ParentsEnsured, Walked, GetAt;
    ghost var w := Snap(S);
    reply, parent, S' := n.EnsureParentDirs(path, m, S, st);
    ghost var w1 := Snap(S');
    EnsuredInv(st, w, w1, n, Parents(path), m, reply, AsOption(parent));
    var again;
    again, found, S' := n.Walk(path, 0, S', st);
    assert path[0..|path| - 1] == path[..|path| - 1];
    WalkFacts(st, w1, Snap(S'), n, path[..|path| - 1], again, AsOption(found));
    if reply == FoundDir {
      assert Parents(path) == path[..|path| - 1];
      WalkFindsEnsured(st, w, w1, Snap(S'), n, path[..|path| - 1], m, AsOption(parent), again, AsOption(found));
      GetAtAbs(st, Snap(S'), n, path[..|path| - 1], found);
    }
  }

  lemma EnsuredInv(st: Store, w: World<MutableTree>, w': World<MutableTree>, n: MutableTree, dirs: Path, meta: Checksum,
                   reply: Reply, out: Option<MutableTree>)
    requires ParentsEnsured(st, w, w', n, dirs, meta, reply, out)
    ensures Inv(st, w') && n in w'
  {
  }

  /**
   fill_empty_from_dirtree is the one operation through which laziness shows: two nodes that
   stand for the same non-empty tree answer differently when asked to merge with that tree.
   */
  lemma FillShowsLaziness(st: Store, n: MutableTree, c: Checksum, m: Checksum)
    returns (a: Node<MutableTree>, b: Node<MutableTree>)
    requires st.Valid() && c in st.objects && st.objects[c].files != map[] && st.objects[c].subdirs == map[]
    ensures Inv(st, map[n := a]) && Inv(st, map[n := b])
    ensures Abs(st, map[n := a], n) == Abs(st, map[n := b], n) == Resolve(st, c, m)
    ensures FillsFrom(a, c) && !FillsFrom(b, c)
  {
    a := Node(None, Lazy(st.objects), Some(c), Some(m), map[], map[], 0);
    b := Node(None, Whole, None, Some(m), st.objects[c].files, map[], 0);
    Alone(st, n, a);
    Alone(st, n, b);
    assert Resolve(st, c, m).subdirs == map[];
  }

  ghost predicate NamesApart(t: Tree) {
    t.files.Keys !! t.subdirs.Keys && forall k :: k in t.subdirs ==> NamesApart(t.subdirs[k])
  }

  lemma {:induction false} ResolveNamesApart(st: Store, c: Checksum, m: Checksum)
    requires st.Valid() && c in st.objects
    ensures NamesApart(Resolve(st, c, m))
    decreases st.rank(c)
  {
    assert st.ObjectOk(c);
    var o := st.objects[c];
    forall k | k in o.subdirs
      ensures NamesApart(Resolve(st, c, m).subdirs[k])
    {
      ResolveNamesApart(st, o.subdirs[k].contents, o.subdirs[k].meta);
    }
  }

  /** In every reachable state no directory has a file and a subdirectory of the same name. */
  lemma {:induction false} AbsNamesApart(st: Store, w: World<MutableTree>, n: MutableTree)
    requires Inv(st, w) && n in w
    ensures NamesApart(Abs(st, w, n))
    decreases Below(w, n)
  {
    assert DownOk(w, n) && CacheOk(st, w, n);
    if w[n].state.Lazy? {
      ResolveNamesApart(st, w[n].contents.value, w[n].meta.value);
    } else {
      AbsWhole(st, w, n);
      forall k | k in w[n].subdirs
        ensures NamesApart(Abs(st, w, n).subdirs[k])
      {
        AbsChild(st, w, n, k);
        ChildIsBelow(w, n, k);
        AbsNamesApart(st, w, w[n].subdirs[k]);
      }
    }
  }
}
