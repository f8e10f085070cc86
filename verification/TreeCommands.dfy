/**
 The reference semantics of the tree operations: what each of them does to a fully loaded
 pure tree, with no caches, no laziness and no sharing.
 */
module TreeCommands {
  import opened Options
  import opened DirTrees
  import opened TreePaths

  predicate ValidName(name: Name) {
    name != "." && name != ".." && '/' !in name
  }

  /** An operation on one directory. */
  datatype Op =
    | ReplaceFile(name: Name, checksum: Checksum)
    | Remove(name: Name, allowNoent: bool)
    | EnsureDir(name: Name)
    | Lookup(name: Name)
    | SetMetadata(checksum: Checksum)

  datatype Reply =
    | Done
    | FoundFile(checksum: Checksum)
    | FoundDir
    | InvalidName
    | IsDirectory
    | IsFile
    | NoEntry
    | LoadFailed

  function Apply(op: Op, d: Tree): (Tree, Reply) {
    match op
    case ReplaceFile(name, checksum) =>
      if !ValidName(name) then (d, InvalidName)
      else if name in d.subdirs then (d, IsDirectory)
      else (d.(files := d.files[name := checksum]), Done)
    case Remove(name, allowNoent) =>
      if !ValidName(name) then (d, InvalidName)
      else if name in d.files then (d.(files := d.files - {name}), Done)
      else if name in d.subdirs then (d.(subdirs := d.subdirs - {name}), Done)
      else (d, if allowNoent then Done else NoEntry)
    case EnsureDir(name) =>
      if !ValidName(name) then (d, InvalidName)
      else if name in d.files then (d, IsFile)
      else if name in d.subdirs then (d, FoundDir)
      else (d.(subdirs := d.subdirs[name := EMPTY_TREE]), FoundDir)
    case Lookup(name) =>
      if name in d.subdirs then (d, FoundDir)
      else if name in d.files then (d, FoundFile(d.files[name]))
      else (d, NoEntry)
    case SetMetadata(checksum) => (d.(meta := Some(checksum)), Done)
  }

  ghost function Parents(path: Path): Path {
    if path == [] then [] else path[..|path| - 1]
  }

  /** A directory whose unset metadata has been filled in. */
  function Stamped(t: Tree, meta: Checksum): Tree {
    if t.meta == None then t.(meta := Some(meta)) else t
  }

  /** What a client of a tree can ask for, at the directory named by a path from the root. */
  datatype Command =
    | OnDir(path: Path, op: Op)
    | EnsureParents(path: Path, split: Path, meta: Checksum)
    | Write(path: Path)

  datatype Answer = NoDir | Replied(reply: Reply) | Wrote(commit: Commit)

  /** One command on a directory. */
  ghost function Answered(st: Store, d: Tree, cmd: Command): (Tree, Answer) {
    match cmd
    case OnDir(_, op) => var r := Apply(op, d); (r.0, Replied(r.1))
    case EnsureParents(_, split, meta) =>
      (match MakeDirs(Stamped(d, meta), Parents(split), meta)
       case None => (Stamped(d, meta), Replied(IsFile))
       case Some(d') => (d', Replied(FoundDir)))
    case Write(_) => (d, Wrote(CommitOf(st, d)))
  }

  /** One command on a whole tree. */
  ghost function Interpret(st: Store, t: Tree, cmd: Command): (Tree, Answer) {
    match GetAt(t, cmd.path)
    case None => (t, NoDir)
    case Some(d) => var r := Answered(st, d, cmd); (PutAt(t, cmd.path, r.0), r.1)
  }

  /** A run of commands: the final tree and all answers, on the pure tree. */
  ghost function InterpretAll(st: Store, t: Tree, cmds: seq<Command>): (Tree, seq<Answer>) {
    if cmds == [] then (t, [])
    else
      var before := InterpretAll(st, t, cmds[..|cmds| - 1]);
      var last := Interpret(st, before.0, cmds[|cmds| - 1]);
      (last.0, before.1 + [last.1])
  }

  // --- what has been loaded -----------------------------------------------------------------

  /** What an operation on a directory does to the marks that say what is still lazy. */
  datatype Effect = Effect(load: bool, drop: Option<Name>, add: Option<Name>, unload: bool)

  const NO_EFFECT := Effect(false, None, None, false)
  const LOAD := NO_EFFECT.(load := true)
  const UNLOAD := NO_EFFECT.(unload := true)

  /** Whether `q` is lazy after an operation on the directory `p`, given whether it was before. */
  predicate LazyAfter(e: Effect, p: Path, q: Path, lazy: bool) {
    if e.drop.Some? && p + [e.drop.value] <= q then true
    else if e.add.Some? && q == p + [e.add.value] then false
    else if e.unload && p <= q then true
    else lazy && !(e.load && q == p)
  }

  function EffectOf(op: Op, d: Tree): Effect {
    match op
    case ReplaceFile(name, _) => if ValidName(name) then LOAD else NO_EFFECT
    case Remove(name, _) =>
      if !ValidName(name) then NO_EFFECT
      else if name !in d.files && name in d.subdirs then LOAD.(drop := Some(name)) else LOAD
    case EnsureDir(name) =>
      if !ValidName(name) then NO_EFFECT
      else if name !in d.files && name !in d.subdirs then LOAD.(add := Some(name)) else LOAD
    case Lookup(_) => LOAD
    case SetMetadata(_) => NO_EFFECT
  }

  /** `q` is one of the directories passed on the way along `path` from `p`, whose tree is `t`. */
  ghost predicate OnWay(t: Tree, p: Path, path: Path, q: Path) {
    exists i :: 0 <= i < |path| && q == p + path[..i] && GetAt(t, path[..i]).Some?
  }

  /** The same with the directory at the end. */
  ghost predicate Reached(t: Tree, p: Path, path: Path, q: Path) {
    exists i :: 0 <= i <= |path| && q == p + path[..i] && GetAt(t, path[..i]).Some?
  }

  // --- filling from a stored tree ---------------------------------------------------------

  /** The union of two directories under the metadata of the second. */
  ghost function Overlay(a: Tree, b: Tree): Tree {
    Tree(b.meta, a.files + b.files, a.subdirs + b.subdirs)
  }

  ghost predicate IsEmpty(t: Tree) {
    t.files == map[] && t.subdirs == map[]
  }

  /** The three cases in which two directories can be merged without writing an object. */
  ghost predicate Mergeable(a: Tree, b: Tree) {
    IsEmpty(a) || IsEmpty(b) || (a.files == b.files && a.subdirs == b.subdirs)
  }

  /** Everything a client can do: one of the commands, or filling a directory from the store. */
  datatype Action = Ask(cmd: Command) | Fill(path: Path, contents: Checksum, meta: Checksum)

  datatype Outcome = Told(answer: Answer) | Merged(ok: bool)

  /** The reference with marks: the pure tree, and the directories of it that have been loaded. */
  datatype Reference = Reference(tree: Tree, loaded: iset<Path>)

  ghost function Visited(t: Tree, path: Path, loaded: iset<Path>): iset<Path> {
    iset q: Path | q in loaded || OnWay(t, [], path, q)
  }

  ghost function Affected(e: Effect, p: Path, loaded: iset<Path>): iset<Path> {
    iset q: Path | StaysLoaded(e, p, loaded, q)
  }

  ghost predicate StaysLoaded(e: Effect, p: Path, loaded: iset<Path>, q: Path) {
    !LazyAfter(e, p, q, !(q in loaded))
  }

  /** What a command loads once it has come to its directory `d`. */
  ghost function LoadedBy(st: Store, d: Tree, cmd: Command, loaded: iset<Path>): iset<Path> {
    match cmd
    case OnDir(p, op) => Affected(EffectOf(op, d), p, loaded)
    case EnsureParents(p, split, _) =>
      iset q: Path | q in loaded || Reached(Answered(st, d, cmd).0, p, Parents(split), q)
    case Write(_) => loaded
  }

  ghost function LoadedAfter(st: Store, t: Tree, cmd: Command, loaded: iset<Path>): iset<Path> {
    var visited := Visited(t, cmd.path, loaded);
    match GetAt(t, cmd.path)
    case None => visited
    case Some(d) => LoadedBy(st, d, cmd, visited)
  }

  /** One action. Whether a directory can be filled depends on whether it has been loaded. */
  ghost function Play(st: Store, g: Reference, act: Action): (Reference, Outcome)
    requires st.Valid() && (act.Fill? ==> act.contents in st.objects)
  {
    match act
    case Ask(cmd) =>
      var r := Interpret(st, g.tree, cmd);
      (Reference(r.0, LoadedAfter(st, g.tree, cmd, g.loaded)), Told(r.1))
    case Fill(path, contents, meta) =>
      var visited := Visited(g.tree, path, g.loaded);
      match GetAt(g.tree, path)
      case None => (g.(loaded := visited), Told(NoDir))
      case Some(d) =>
        var given := Resolve(st, contents, meta);
        if IsEmpty(d) || (path !in g.loaded && Mergeable(d, given))
        then (Reference(PutAt(g.tree, path, Overlay(d, given)), Affected(UNLOAD, path, visited)), Merged(true))
        else (g.(loaded := visited), Merged(false))
  }

  ghost predicate Fillable(st: Store, acts: seq<Action>) {
    forall i :: 0 <= i < |acts| && acts[i].Fill? ==> acts[i].contents in st.objects
  }

  /** A run of actions: the final reference and all outcomes. */
  ghost function PlayAll(st: Store, g: Reference, acts: seq<Action>): (Reference, seq<Outcome>)
    requires st.Valid() && Fillable(st, acts)
  {
    if acts == [] then (g, [])
    else
      var before := PlayAll(st, g, acts[..|acts| - 1]);
      var last := Play(st, before.0, acts[|acts| - 1]);
      (last.0, before.1 + [last.1])
  }
}
