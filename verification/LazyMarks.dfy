/** How the directories that are still lazy follow from a change to the links of one node. */
module LazyMarks {
  import opened Options
  import opened DirTrees
  import opened TreePaths
  import opened TreeCommands
  import opened Worlds
  import opened WorldEdits
  import opened WorldSteps

  /** The directory at a path is still to be loaded: it is lazy, or not even a node yet. */
  ghost predicate LazyAt<Ref>(w: World<Ref>, r: Ref, path: Path) {
    match At(w, r, path)
    case None => true
    case Some(n) => n in w && w[n].state.Lazy?
  }

  /** The directories that have been loaded, as paths from `r`. */
  ghost function LoadedIn<Ref>(w: World<Ref>, r: Ref): iset<Path> {
    iset q: Path | !LazyAt(w, r, q)
  }

  ghost predicate SameLinks<Ref>(a: Node<Ref>, b: Node<Ref>) {
    a.subdirs == b.subdirs && a.state.Lazy? == b.state.Lazy?
  }

  /** Nothing but `n` has other links, and nothing went away. */
  ghost predicate LinksAt<Ref>(w: World<Ref>, w': World<Ref>, n: Ref) {
    forall m :: m in w ==> m in w' && (m == n || SameLinks(w[m], w'[m]))
  }

  lemma LazyStep<Ref>(w: World<Ref>, r: Ref, path: Path)
    requires r in w
    ensures path == [] ==> (LazyAt(w, r, path) <==> w[r].state.Lazy?)
    ensures path != [] && path[0] !in w[r].subdirs ==> LazyAt(w, r, path)
    ensures path != [] && path[0] in w[r].subdirs ==>
              (LazyAt(w, r, path) <==> LazyAt(w, w[r].subdirs[path[0]], path[1..]))
  {
  }

  /** Below a node that `n` is not under, nothing changes. */
  lemma {:induction false} LazyElsewhere<Ref>(w: World<Ref>, w': World<Ref>, n: Ref, r: Ref, q: Path)
    requires Shape(w) && LinksAt(w, w', n) && n in w && r in w && !Above(w, r, n)
    ensures LazyAt(w', r, q) <==> LazyAt(w, r, q)
    decreases |q|
  {
    hide LazyAt;
    LazyStep(w, r, q);
    LazyStep(w', r, q);
    if q != [] && q[0] in w[r].subdirs {
      var c := w[r].subdirs[q[0]];
      ChildIsBelow(w, r, q[0]);
      if Above(w, c, n) { AboveParent(w, c, n); }
      LazyElsewhere(w, w', n, c, q[1..]);
    }
  }

  /** The children that `n` keeps are as lazy as they were. */
  lemma LazyBelow<Ref>(w: World<Ref>, w': World<Ref>, n: Ref, s: Path)
    requires Shape(w) && LinksAt(w, w', n) && n in w && s != []
    requires s[0] in w[n].subdirs && s[0] in w'[n].subdirs && w'[n].subdirs[s[0]] == w[n].subdirs[s[0]]
    ensures LazyAt(w', n, s) <==> LazyAt(w, n, s)
  {
    hide LazyAt;
    var c := w[n].subdirs[s[0]];
    ChildIsBelow(w, n, s[0]);
    assert ShapeAt(w, n);
    if Above(w, c, n) { AboveDepth(w, c, n); }
    LazyElsewhere(w, w', n, c, s[1..]);
    LazyStep(w, n, s);
    LazyStep(w', n, s);
  }

  /** A path that leads through `n` is judged at `n`; any other is as it was. */
  lemma {:induction false} LazyThrough<Ref>(w: World<Ref>, w': World<Ref>, n: Ref, r: Ref, p: Path, q: Path)
    requires Shape(w) && LinksAt(w, w', n) && At(w, r, p) == Some(n)
    ensures !(p <= q) ==> (LazyAt(w', r, q) <==> LazyAt(w, r, q))
    ensures p <= q ==> (LazyAt(w', r, q) <==> LazyAt(w', n, q[|p|..])) && (LazyAt(w, r, q) <==> LazyAt(w, n, q[|p|..]))
    decreases |p|
  {
    hide LazyAt;
    if p != [] {
      var c := w[r].subdirs[p[0]];
      AtIsBelow(w, c, p[1..], n);
      ChildIsBelow(w, r, p[0]);
      AboveIsApart(w, r, p[0], n);
      LazyStep(w, r, q);
      LazyStep(w', r, q);
      if q != [] && q[0] == p[0] {
        LazyThrough(w, w', n, c, p[1..], q[1..]);
        assert p <= q <==> p[1..] <= q[1..];
        assert p <= q ==> q[1..][|p| - 1..] == q[|p|..];
      } else if q != [] && q[0] in w[r].subdirs {
        var b := w[r].subdirs[q[0]];
        ChildIsBelow(w, r, q[0]);
        assert ShapeAt(w, r);
        if Above(w, b, n) { AboveUnique(w, b, c, n); }
        LazyElsewhere(w, w', n, b, q[1..]);
      }
    } else {
      assert q[0..] == q;
    }
  }

  // --- effects ------------------------------------------------------------------------------

  ghost predicate MarkedFrom<Ref>(w: World<Ref>, w': World<Ref>, e: Effect, r: Ref, p: Path) {
    forall q :: LazyAt(w', r, q) <==> LazyAfter(e, p, q, LazyAt(w, r, q))
  }

  /** The step has the given effect, seen from every node above `n`. */
  ghost predicate Marked<Ref>(w: World<Ref>, w': World<Ref>, n: Ref, e: Effect) {
    forall r, p :: r in w && At(w, r, p) == Some(n) ==> MarkedFrom(w, w', e, r, p)
  }

  lemma LoadedByEffect<Ref>(w: World<Ref>, w': World<Ref>, n: Ref, e: Effect, r: Ref, p: Path)
    requires Marked(w, w', n, e) && r in w && At(w, r, p) == Some(n)
    ensures LoadedIn(w', r) == Affected(e, p, LoadedIn(w, r))
  {
    hide LazyAt;
    assert MarkedFrom(w, w', e, r, p);
  }

  lemma MarkedByNode<Ref>(w: World<Ref>, w': World<Ref>, n: Ref, e: Effect)
    requires Shape(w) && LinksAt(w, w', n) && n in w && MarkedFrom(w, w', e, n, [])
    ensures Marked(w, w', n, e)
  {
    forall r, p | r in w && At(w, r, p) == Some(n)
      ensures MarkedFrom(w, w', e, r, p)
    {
      hide LazyAt;
      forall q
        ensures LazyAt(w', r, q) <==> LazyAfter(e, p, q, LazyAt(w, r, q))
      {
        LazyThrough(w, w', n, r, p, q);
        if p <= q {
          AfterHere(e, p, q[|p|..], LazyAt(w, n, q[|p|..]));
          assert q == p + q[|p|..];
        } else {
          AfterElsewhere(e, p, q, LazyAt(w, r, q));
        }
      }
    }
  }

  lemma AfterHere(e: Effect, p: Path, s: Path, lazy: bool)
    ensures LazyAfter(e, p, p + s, lazy) == LazyAfter(e, [], s, lazy)
  {
    assert (p + s)[|p|..] == s;
    if e.drop.Some? {
      var k := [e.drop.value];
      assert [] + k == k;
      assert p + k <= p + s ==> k <= s by { assert p + k <= p + s ==> (p + s)[|p|..|p| + 1] == k; }
      assert k <= s ==> p + k <= p + s;
    }
    if e.add.Some? { assert [] + [e.add.value] == [e.add.value]; }
  }

  lemma AfterElsewhere(e: Effect, p: Path, q: Path, lazy: bool)
    requires !(p <= q)
    ensures LazyAfter(e, p, q, lazy) == lazy
  {
  }

  /** Changes to files, metadata and caches have no effect; loading is no effect on a loaded node. */
  lemma MarkedNothing<Ref>(w: World<Ref>, w': World<Ref>, n: Ref, e: Effect)
    requires Shape(w) && LinksAt(w, w', n) && n in w && SameLinks(w[n], w'[n])
    requires e == NO_EFFECT || (e == LOAD && w[n].state.Whole?)
    ensures Marked(w, w', n, e)
  {
    hide LazyAt;
    forall s
      ensures LazyAt(w', n, s) <==> LazyAfter(e, [], s, LazyAt(w, n, s))
    {
      LazyStep(w, n, s);
      LazyStep(w', n, s);
      if s != [] && s[0] in w[n].subdirs { LazyBelow(w, w', n, s); }
    }
    MarkedByNode(w, w', n, e);
  }

  lemma MarkedLoad<Ref>(w: World<Ref>, w': World<Ref>, n: Ref, obj: DirTree, kids: map<Name, Ref>)
    requires Shape(w) && IsLoaded(w, w', n, obj, kids) && w[n].state.Lazy? && w[n].subdirs == map[]
    ensures Marked(w, w', n, LOAD)
  {
    hide LazyAt;
    forall s
      ensures LazyAt(w', n, s) <==> LazyAfter(LOAD, [], s, LazyAt(w, n, s))
    {
      LazyStep(w, n, s);
      LazyStep(w', n, s);
      if s != [] && s[0] in kids { LazyStep(w', kids[s[0]], s[1..]); }
    }
    MarkedByNode(w, w', n, LOAD);
  }

  lemma MarkedDrop<Ref>(w: World<Ref>, w': World<Ref>, n: Ref, k: Name)
    requires Shape(w) && LinksAt(w, w', n) && n in w && w[n].state.Whole? && w'[n].state.Whole?
    requires w'[n].subdirs == w[n].subdirs - {k}
    ensures Marked(w, w', n, LOAD.(drop := Some(k)))
  {
    hide LazyAt;
    forall s
      ensures LazyAt(w', n, s) <==> LazyAfter(LOAD.(drop := Some(k)), [], s, LazyAt(w, n, s))
    {
      assert [] + [k] == [k] && ([k] <= s <==> s != [] && s[0] == k);
      LazyStep(w, n, s);
      LazyStep(w', n, s);
      if s != [] && s[0] != k && s[0] in w[n].subdirs { LazyBelow(w, w', n, s); }
    }
    MarkedByNode(w, w', n, LOAD.(drop := Some(k)));
  }

  lemma MarkedAdd<Ref>(w: World<Ref>, w': World<Ref>, n: Ref, k: Name, c: Ref)
    requires Shape(w) && LinksAt(w, w', n) && n in w && w[n].state.Whole? && w'[n].state.Whole?
    requires k !in w[n].subdirs && w'[n].subdirs == w[n].subdirs[k := c]
    requires c in w' && w'[c].state.Whole? && w'[c].subdirs == map[]
    ensures Marked(w, w', n, LOAD.(add := Some(k)))
  {
    hide LazyAt;
    forall s
      ensures LazyAt(w', n, s) <==> LazyAfter(LOAD.(add := Some(k)), [], s, LazyAt(w, n, s))
    {
      assert [] + [k] == [k] && (s == [k] <==> s != [] && s[0] == k && s[1..] == []);
      LazyStep(w, n, s);
      LazyStep(w', n, s);
      if s != [] && s[0] == k {
        LazyStep(w', c, s[1..]);
      } else if s != [] && s[0] in w[n].subdirs {
        LazyBelow(w, w', n, s);
      }
    }
    MarkedByNode(w, w', n, LOAD.(add := Some(k)));
  }

  lemma MarkedUnload<Ref>(w: World<Ref>, w': World<Ref>, n: Ref)
    requires Shape(w) && LinksAt(w, w', n) && n in w && w'[n].state.Lazy? && w[n].subdirs == w'[n].subdirs == map[]
    ensures Marked(w, w', n, UNLOAD)
  {
    hide LazyAt;
    forall s
      ensures LazyAt(w', n, s) <==> LazyAfter(UNLOAD, [], s, LazyAt(w, n, s))
    {
      assert [] <= s;
      LazyStep(w', n, s);
    }
    MarkedByNode(w, w', n, UNLOAD);
  }

  lemma MarkedThen<Ref>(w: World<Ref>, w1: World<Ref>, w2: World<Ref>, n: Ref, e: Effect)
    requires Grown(w, w1) && Marked(w, w1, n, e) && Marked(w1, w2, n, NO_EFFECT)
    ensures Marked(w, w2, n, e)
  {
    forall r, p | r in w && At(w, r, p) == Some(n)
      ensures MarkedFrom(w, w2, e, r, p)
    {
      hide LazyAt;
      AtGrows(w, w1, r, p);
      assert MarkedFrom(w, w1, e, r, p) && MarkedFrom(w1, w2, NO_EFFECT, r, p);
    }
  }

  /** Loading first adds nothing to an operation that loads. */
  lemma MarkedAfter<Ref>(w: World<Ref>, w1: World<Ref>, w2: World<Ref>, n: Ref, e: Effect)
    requires Grown(w, w1) && Marked(w, w1, n, LOAD) && Marked(w1, w2, n, e) && e.load
    ensures Marked(w, w2, n, e)
  {
    forall r, p | r in w && At(w, r, p) == Some(n)
      ensures MarkedFrom(w, w2, e, r, p)
    {
      hide LazyAt;
      AtGrows(w, w1, r, p);
      assert MarkedFrom(w, w1, LOAD, r, p) && MarkedFrom(w1, w2, e, r, p);
    }
  }
}
