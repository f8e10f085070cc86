/**
 Which <file> element the collected size, hashes and URLs come from. The URLs come from one
 element; the size and the hashes may be left over from an earlier one of the same name.
 */
module MetalinkOwners {
  import opened Options
  import opened Metalinks

  // --- the texts of a run -----------------------------------------------------------------------

  /** The event at `i` is a text of the given kind inside the <file> element with the given number. */
  ghost predicate Took(requested: string, lib: Library, events: seq<Event>, i: nat, k: Kind, id: nat) {
    && i < |events| && events[i].Words? && Run(requested, lib, events[..i]).Running?
    && var r := Run(requested, lib, events[..i]).r;
    Takes(Top(r.stack), r.data) == Some(k) && |r.stack| > 2 && r.stack[2].id == id
  }

  /** The data hold what that text says. */
  predicate Holds(lib: Library, d: Data, k: Kind, text: string) {
    match k
    case SizeText => d.size == lib.number(text)
    case Sha256Text => d.sha256 == Some(text)
    case Sha512Text => d.sha512 == Some(text)
  }

  /** It is the last text of its kind, and the data hold what it says. */
  ghost predicate Decides(requested: string, lib: Library, events: seq<Event>, i: nat, k: Kind, id: nat, d: Data) {
    && Took(requested, lib, events, i, k, id) && Holds(lib, d, k, events[i].text)
    && forall j, other :: i < j ==> !Took(requested, lib, events, j, k, other)
  }

  // --- numbers only grow ------------------------------------------------------------------------

  ghost predicate InFile(stack: seq<Frame>) {
    |stack| > 2 && stack[2].state == File
  }

  /** No mark is newer than the open <file>, nor than the <file> that the URLs came from. */
  ghost predicate MarksOk(r: Stacked) {
    && (forall i :: 0 <= i < |r.stack| ==> r.stack[i].id < r.count)
    && (forall k :: k in r.marks ==>
                      && r.marks[k] < r.count
                      && (InFile(r.stack) ==> r.marks[k] <= r.stack[2].id)
                      && (r.owners != [] ==> r.marks[k] <= r.owners[0]))
  }

  lemma TextInFile(requested: string, stack: seq<Frame>)
    requires StackOk(requested, stack) && Top(stack) in {Size, Hash, Url}
    ensures InFile(stack)
  {
    hide Chain;
    TopTellsStack(requested, stack);
    ChainsAre();
    assert States(stack)[2] == stack[2].state;
  }

  lemma StepKeepsMarks(requested: string, lib: Library, r: Stacked, e: Event)
    requires StackOk(requested, r.stack) && OwnersOk(r) && MarksOk(r) && Step(requested, lib, r, e).Running?
    ensures MarksOk(Step(requested, lib, r, e).r)
  {
    hide StackOk, Open;
    if e.StartTag? {
      StartKeepsMarks(requested, lib, r, e);
    } else if e.Words? && Top(r.stack) in {Size, Hash, Url} {
      TextInFile(requested, r.stack);
    }
  }

  lemma StartKeepsMarks(requested: string, lib: Library, r: Stacked, e: Event)
    requires OwnersOk(r) && MarksOk(r) && e.StartTag? && Step(requested, lib, r, e).Running?
    ensures MarksOk(Step(requested, lib, r, e).r)
  {
    var r' := Step(requested, lib, r, e).r;
    assert r'.marks == r.marks && r'.owners == r.owners;
    assert forall i :: 0 <= i < |r.stack| ==> r'.stack[i] == r.stack[i];
  }

  lemma {:induction false} RunKeepsMarks(requested: string, lib: Library, events: seq<Event>)
    requires Run(requested, lib, events).Running?
    ensures MarksOk(Run(requested, lib, events).r)
  {
    if events != [] {
      hide Step, MarksOk, StackOk, OwnersOk;
      var before := events[..|events| - 1];
      RunKeepsMarks(requested, lib, before);
      RunKeeps(requested, lib, before);
      StepKeepsMarks(requested, lib, Run(requested, lib, before).r, events[|events| - 1]);
    }
  }

  // --- the marks tell the texts -----------------------------------------------------------------

  lemma TookEarlier(requested: string, lib: Library, events: seq<Event>, i: nat, k: Kind, id: nat)
    requires i < |events| - 1
    ensures Took(requested, lib, events, i, k, id) <==> Took(requested, lib, events[..|events| - 1], i, k, id)
  {
    assert events[..|events| - 1][..i] == events[..i];
  }

  /** Every text of a kind is marked, unless a later one of the same or a later <file> is. */
  lemma {:induction false} TookIsMarked(requested: string, lib: Library, events: seq<Event>, i: nat, k: Kind, id: nat)
    requires Run(requested, lib, events).Running? && Took(requested, lib, events, i, k, id)
    ensures var marks := Run(requested, lib, events).r.marks; k in marks && id <= marks[k]
    decreases |events|
  {
    hide Run, Takes, Top, Step, StackOk, MarksOk;
    if i == |events| - 1 {
      TookNow(requested, lib, events, k, id);
    } else {
      var before := events[..|events| - 1];
      LastStep(requested, lib, events, k);
      TookEarlier(requested, lib, events, i, k, id);
      TookIsMarked(requested, lib, before, i, k, id);
      RunKeepsMarks(requested, lib, before);
      RunKeeps(requested, lib, before);
      MarksGrow(requested, lib, Run(requested, lib, before).r, events[|events| - 1], k);
    }
  }

  lemma TookNow(requested: string, lib: Library, events: seq<Event>, k: Kind, id: nat)
    requires Run(requested, lib, events).Running? && events != []
    requires Took(requested, lib, events, |events| - 1, k, id)
    ensures var marks := Run(requested, lib, events).r.marks; k in marks && marks[k] == id
  {
    hide Open, Read, Takes;
  }

  lemma MarksGrow(requested: string, lib: Library, r: Stacked, e: Event, k: Kind)
    requires StackOk(requested, r.stack) && MarksOk(r) && Step(requested, lib, r, e).Running? && k in r.marks
    ensures var marks := Step(requested, lib, r, e).r.marks; k in marks && r.marks[k] <= marks[k]
  {
    hide StackOk, Open;
    if e.Words? && Top(r.stack) in {Size, Hash, Url} { TextInFile(requested, r.stack); }
  }

  lemma StepHolds(requested: string, lib: Library, r: Stacked, e: Event, k: Kind, text: string)
    requires Step(requested, lib, r, e).Running? && Holds(lib, r.data, k, text)
    requires !(e.Words? && Takes(Top(r.stack), r.data) == Some(k))
    ensures Holds(lib, Step(requested, lib, r, e).r.data, k, text)
  {
    if e.StartTag? && Top(r.stack) != Passthrough {
      OpenHolds(requested, lib, Top(r.stack), r.data, e.name, e.attrs, k, text);
    }
  }

  lemma OpenHolds(requested: string, lib: Library, s: State, d: Data, name: string, attrs: Attributes, k: Kind, text: string)
    requires Holds(lib, d, k, text) && Open(requested, s, d, name, attrs).Enter?
    ensures Holds(lib, Open(requested, s, d, name, attrs).data, k, text)
  {
  }

  /** A mark names the <file> of the text that decides. */
  lemma {:induction false} MarkDecides(requested: string, lib: Library, events: seq<Event>, k: Kind) returns (i: nat)
    requires Run(requested, lib, events).Running? && k in Run(requested, lib, events).r.marks
    ensures var r := Run(requested, lib, events).r; Decides(requested, lib, events, i, k, r.marks[k], r.data)
    decreases |events|
  {
    var n := |events| - 1;
    var before, last := events[..n], events[n];
    var r := Run(requested, lib, before).r;
    if last.Words? && Takes(Top(r.stack), r.data) == Some(k) {
      RunKeeps(requested, lib, before);
      TextInFile(requested, r.stack);
      i := n;
      assert Run(requested, lib, events).r.marks == MarkedBy(r);
    } else {
      i := MarkDecides(requested, lib, before, k);
      DecidesStill(requested, lib, events, i, k);
    }
  }

  lemma DecidesStill(requested: string, lib: Library, events: seq<Event>, i: nat, k: Kind)
    requires events != [] && Run(requested, lib, events).Running?
    requires var before, last := events[..|events| - 1], events[|events| - 1];
             var r := Run(requested, lib, before).r;
             && k in r.marks && Decides(requested, lib, before, i, k, r.marks[k], r.data)
             && !(last.Words? && Takes(Top(r.stack), r.data) == Some(k))
    ensures var r := Run(requested, lib, events).r;
            k in r.marks && Decides(requested, lib, events, i, k, r.marks[k], r.data)
  {
    hide Run, Step, Holds, Takes, Top;
    var n := |events| - 1;
    LastStep(requested, lib, events, k);
    var r := Run(requested, lib, events[..n]).r;
    TookEarlier(requested, lib, events, i, k, r.marks[k]);
    StepHolds(requested, lib, r, events[n], k, events[i].text);
    forall j: nat, other | i < j
      ensures !Took(requested, lib, events, j, k, other)
    {
      if j < n { TookEarlier(requested, lib, events, j, k, other); }
    }
  }

  lemma LastStep(requested: string, lib: Library, events: seq<Event>, k: Kind)
    requires events != [] && Run(requested, lib, events).Running?
    ensures var before, last := Run(requested, lib, events[..|events| - 1]), events[|events| - 1];
            && before.Running? && Step(requested, lib, before.r, last) == Run(requested, lib, events)
            && (!(last.Words? && Takes(Top(before.r.stack), before.r.data) == Some(k)) && k in before.r.marks ==>
                  k in Run(requested, lib, events).r.marks && Run(requested, lib, events).r.marks[k] == before.r.marks[k])
  {
    hide Open, Read;
  }

  /**
   Once there is a URL, the size, or a hash, comes from the same <file> element exactly when that
   element has such a text of its own. Otherwise it is left over from an earlier element.
   */
  lemma SameFileIff(requested: string, lib: Library, events: seq<Event>, k: Kind)
    requires Run(requested, lib, events).Running? && Run(requested, lib, events).r.data.urls != []
    ensures var r := Run(requested, lib, events).r;
            && r.owners != []
            && ((k in r.marks && r.marks[k] == r.owners[0]) <==>
                exists i: nat :: Took(requested, lib, events, i, k, r.owners[0]))
  {
    hide Run, Took;
    var r := Run(requested, lib, events).r;
    RunKeeps(requested, lib, events);
    RunKeepsMarks(requested, lib, events);
    if k in r.marks && r.marks[k] == r.owners[0] {
      var i := MarkDecides(requested, lib, events, k);
    }
    forall i: nat | Took(requested, lib, events, i, k, r.owners[0])
      ensures k in r.marks && r.marks[k] == r.owners[0]
    {
      TookIsMarked(requested, lib, events, i, k, r.owners[0]);
    }
  }

  // --- what the parser insists on ---------------------------------------------------------------

  /** The state of the innermost element that is not ignored. */
  function Active(stack: seq<Frame>): State {
    Top(stack[..Ignored(stack)])
  }

  /** Elements that count have exactly the attributes they need. */
  predicate FrameInsists(f: Frame) {
    match f.state
    case File => f.attrs.Keys == {"name"}
    case Hash => f.attrs.Keys == {"type"}
    case Url =>
      && f.attrs.Keys == {"protocol", "type", "location", "preference"}
      && (f.attrs["protocol"] == "http" || f.attrs["protocol"] == "https")
    case _ => true
  }

  /** Nothing is collected before the requested file is found, and no URL before size and hash type. */
  predicate Insists(r: Stacked) {
    && (forall i :: 0 <= i < |r.stack| ==> FrameInsists(r.stack[i]))
    && (Active(r.stack) == Url ==> r.data.size != 0 && r.data.known)
    && (Active(r.stack) in {File, Size, Verification, Hash, Resources, Url} ==> r.data.foundOurs)
    && (r.data.foundOurs ==> r.data.foundFile)
    && (!r.data.foundOurs ==> r.data.size == 0 && r.data.sha256 == None && r.data.sha512 == None && r.data.urls == [])
  }

  lemma ActiveTop(requested: string, stack: seq<Frame>)
    requires StackOk(requested, stack) && Top(stack) != Passthrough
    ensures Active(stack) == Top(stack)
  {
    IgnoredToTop(requested, stack);
    assert stack[..|stack|] == stack;
  }

  lemma StartInsists(requested: string, lib: Library, r: Stacked, e: Event)
    requires StackOk(requested, r.stack) && Insists(r) && e.StartTag? && Step(requested, lib, r, e).Running?
    ensures Insists(Step(requested, lib, r, e).r)
  {
    hide Open, FrameInsists, Active, Ignored, StackOk;
    var r' := Step(requested, lib, r, e).r;
    var f := r'.stack[|r.stack|];
    StepKeepsStack(requested, lib, r, e);
    ActivePush(requested, r.stack, f);
    if Top(r.stack) != Passthrough {
      ActiveTop(requested, r.stack);
      OpenInsists(requested, r, e.name, e.attrs, f);
    } else {
      assert FrameInsists(f) by { IgnoredInsists(f); }
    }
  }

  lemma IgnoredInsists(f: Frame)
    requires f.state == Passthrough
    ensures FrameInsists(f)
  {
  }

  lemma ActivePush(requested: string, stack: seq<Frame>, f: Frame)
    requires StackOk(requested, stack) && StackOk(requested, stack + [f])
    ensures Active(stack + [f]) == if f.state == Passthrough then Active(stack) else f.state
  {
    var all := stack + [f];
    FollowsPush(requested, Stacked(stack, NOTHING, 0, [], map[]), f);
    IgnoredToTop(requested, all);
    if f.state == Passthrough {
      assert all[..Ignored(stack)] == stack[..Ignored(stack)];
    } else {
      assert all[..|all|] == all;
    }
  }

  lemma OpenInsists(requested: string, r: Stacked, name: string, attrs: Attributes, f: Frame)
    requires Insists(r) && Active(r.stack) == Top(r.stack) != Passthrough
    requires f.name == name && f.attrs == attrs && Open(requested, Top(r.stack), r.data, name, attrs).Enter?
    requires f.state == Open(requested, Top(r.stack), r.data, name, attrs).state
    ensures var d := Open(requested, Top(r.stack), r.data, name, attrs).data;
            && FrameInsists(f)
            && (f.state == Url ==> d.size != 0 && d.known)
            && (Top(r.stack) == Url ==> d == r.data)
            && (f.state in {File, Size, Verification, Hash, Resources, Url} ==> d.foundOurs)
            && (r.data.foundOurs ==> d.foundOurs) && (d.foundOurs ==> d.foundFile)
            && d.size == r.data.size && d.sha256 == r.data.sha256 && d.sha512 == r.data.sha512 && d.urls == r.data.urls
  {
  }

  lemma EndInsists(requested: string, lib: Library, r: Stacked)
    requires StackOk(requested, r.stack) && Insists(r) && r.stack != []
    ensures Insists(Step(requested, lib, r, EndTag).r)
  {
    var stack := r.stack;
    var s, i := stack[..|stack| - 1], Ignored(stack);
    FollowsPop(requested, stack);
    assert FrameOk(requested, stack, |stack| - 1);
    if i == |stack| {
      assert stack[..i] == stack && s[..|s|] == s;
      assert Active(s) == Outer(Active(stack));
    } else {
      assert s[..Ignored(s)] == stack[..i];
      assert Active(s) == Active(stack);
    }
  }

  lemma TextInsists(requested: string, lib: Library, r: Stacked, text: string)
    requires StackOk(requested, r.stack) && Insists(r)
    ensures Insists(Step(requested, lib, r, Words(text)).r)
  {
    if Top(r.stack) in {Size, Hash, Url} { ActiveTop(requested, r.stack); }
  }

  /** Exactly the tags that are refused. */
  lemma RefusedIff(requested: string, s: State, d: Data, name: string, attrs: Attributes)
    ensures Open(requested, s, d, name, attrs).Failed? <==>
            || (s == Files && d.urls == [] && name == "file" && attrs.Keys != {"name"})
            || (s == Verification && name == "hash" && attrs.Keys != {"type"})
            || (s == Resources && (d.size == 0 || !d.known))
            || (s == Resources && name == "url" && attrs.Keys != {"protocol", "type", "location", "preference"})
  {
  }

  /** In every run. */
  lemma {:induction false} RunInsists(requested: string, lib: Library, events: seq<Event>)
    requires Run(requested, lib, events).Running?
    ensures Insists(Run(requested, lib, events).r)
  {
    if events != [] {
      hide Step, Insists, StackOk;
      var before, e := events[..|events| - 1], events[|events| - 1];
      RunInsists(requested, lib, before);
      RunKeeps(requested, lib, before);
      var r := Run(requested, lib, before).r;
      match e
      case StartTag(_, _) => StartInsists(requested, lib, r, e);
      case EndTag => NotUnnested(requested, lib, r); EndInsists(requested, lib, r);
      case Words(text) => TextInsists(requested, lib, r, text);
    } else {
      StartsInsisting();
    }
  }

  lemma NotUnnested(requested: string, lib: Library, r: Stacked)
    requires Step(requested, lib, r, EndTag).Running?
    ensures r.stack != []
  {
  }

  lemma StartsInsisting()
    ensures Insists(START)
  {
  }

  // --- a document that mixes two elements -------------------------------------------------------

  function Wrap(name: string, attrs: Attributes, content: seq<Event>): seq<Event> {
    [StartTag(name, attrs)] + content + [EndTag]
  }

  const URL_OK: Attributes :=
    map["protocol" := "https", "type" := "https", "location" := "", "preference" := ""]

  /** A <file> element that has a size and a hash, but no URL. */
  function Described(name: string, size: string, hash: string): seq<Event> {
    Wrap("file", map["name" := name],
         Wrap("size", map[], [Words(size)])
         + Wrap("verification", map[], Wrap("hash", map["type" := "sha256"], [Words(hash)])))
  }

  /** A <file> element that has a URL, but neither size nor hash. */
  function Located(name: string, url: string): seq<Event> {
    Wrap("file", map["name" := name], Wrap("resources", map[], Wrap("url", URL_OK, [Words(url)])))
  }

  /** Both, one after the other, in a document of their own. */
  function Mixed(name: string, size: string, hash: string, url: string): seq<Event> {
    Wrap("metalink", map[], Wrap("files", map[], Described(name, size, hash) + Located(name, url)))
  }

  /** The reference parser in the element just opened. */
  function Inside(r: Stacked, name: string, attrs: Attributes, s: State, d: Data): Stacked {
    r.(stack := r.stack + [Frame(name, attrs, s, r.count)], data := d, count := r.count + 1)
  }

  lemma WrapRuns(requested: string, lib: Library, r: Stacked, name: string, attrs: Attributes, content: seq<Event>,
                 s: State, d: Data, r': Stacked)
    requires Top(r.stack) != Passthrough && Open(requested, Top(r.stack), r.data, name, attrs) == Enter(s, d)
    requires RunFrom(requested, lib, Inside(r, name, attrs, s, d), content) == Running(r')
    requires r'.stack == Inside(r, name, attrs, s, d).stack
    ensures RunFrom(requested, lib, r, Wrap(name, attrs, content)) == Running(r'.(stack := r.stack))
  {
    hide Open, Read;
    var start := [StartTag(name, attrs)];
    RunFromConcat(requested, lib, r, start + content, [EndTag]);
    RunFromConcat(requested, lib, r, start, content);
    assert start[1..] == [] && [EndTag][1..] == [];
    assert RunFrom(requested, lib, r, start) == Running(Inside(r, name, attrs, s, d));
    assert r'.stack[..|r'.stack| - 1] == r.stack;
  }

  /** An element with nothing but text in it. */
  lemma LeafRuns(requested: string, lib: Library, r: Stacked, name: string, attrs: Attributes, text: string,
                 s: State, d: Data)
    requires Top(r.stack) != Passthrough && Open(requested, Top(r.stack), r.data, name, attrs) == Enter(s, d)
    requires |r.stack| > 2 && d.urls == r.data.urls
    ensures var d', kind := Read(lib, s, d, text), Takes(s, d);
            RunFrom(requested, lib, r, Wrap(name, attrs, [Words(text)])) ==
            Running(r.(data := d', count := r.count + 1,
                       owners := if |d'.urls| > |d.urls| then r.owners + [r.stack[2].id] else r.owners,
                       marks := if kind.Some? then r.marks[kind.value := r.stack[2].id] else r.marks))
  {
    hide Open, Read, Takes;
    var inside := Inside(r, name, attrs, s, d);
    var words := [Words(text)];
    assert words[1..] == [] && Top(inside.stack) == s && inside.stack[2] == r.stack[2];
    var next := Step(requested, lib, inside, words[0]);
    assert RunFrom(requested, lib, inside, words) == RunFrom(requested, lib, next.r, words[1..]) == next;
    WrapRuns(requested, lib, r, name, attrs, words, s, d, next.r);
  }

  /** How the tags of such documents are taken. */
  lemma TagsOpen(requested: string, d: Data)
    ensures d.urls == [] ==>
              Open(requested, Files, d, "file", map["name" := requested]) ==
              Enter(File, d.(foundFile := true, foundOurs := true))
    ensures Open(requested, File, d, "size", map[]) == Enter(Size, d)
    ensures Open(requested, File, d, "verification", map[]) == Enter(Verification, d)
    ensures Open(requested, File, d, "resources", map[]) == Enter(Resources, d)
    ensures Open(requested, Verification, d, "hash", map["type" := "sha256"]) ==
            Enter(Hash, d.(known := true, kind := Sha256))
    ensures d.size != 0 && d.known ==> Open(requested, Resources, d, "url", URL_OK) == Enter(Url, d)
  {
  }

  lemma DescribedRuns(requested: string, lib: Library, r: Stacked, size: string, hash: string)
    requires |r.stack| == 2 && Top(r.stack) == Files && r.data.urls == []
    ensures var d := r.data.(foundFile := true, foundOurs := true, known := true, kind := Sha256,
                             size := lib.number(size), sha256 := Some(hash));
            RunFrom(requested, lib, r, Described(requested, size, hash)) ==
            Running(r.(data := d, count := r.count + 4, marks := r.marks[SizeText := r.count][Sha256Text := r.count]))
  {
    hide RunFrom, Step, Wrap, Open;
    var attrs: Attributes := map["name" := requested];
    var d := r.data.(foundFile := true, foundOurs := true);
    TagsOpen(requested, r.data);
    TagsOpen(requested, d);
    TagsOpen(requested, d.(size := lib.number(size)));
    var file := Inside(r, "file", attrs, File, d);
    LeafRuns(requested, lib, file, "size", map[], size, Size, d);
    var sized := file.(data := d.(size := lib.number(size)), count := r.count + 2,
                       marks := r.marks[SizeText := r.count]);
    var verification := Inside(sized, "verification", map[], Verification, sized.data);
    var hashing := sized.data.(known := true, kind := Sha256);
    LeafRuns(requested, lib, verification, "hash", map["type" := "sha256"], hash, Hash, hashing);
    var hashed := verification.(data := hashing.(sha256 := Some(hash)), count := r.count + 4,
                                marks := sized.marks[Sha256Text := r.count]);
    WrapRuns(requested, lib, sized, "verification", map[], Wrap("hash", map["type" := "sha256"], [Words(hash)]),
             Verification, sized.data, hashed);
    RunFromConcat(requested, lib, file, Wrap("size", map[], [Words(size)]),
                  Wrap("verification", map[], Wrap("hash", map["type" := "sha256"], [Words(hash)])));
    WrapRuns(requested, lib, r, "file", attrs,
             Wrap("size", map[], [Words(size)])
             + Wrap("verification", map[], Wrap("hash", map["type" := "sha256"], [Words(hash)])),
             File, d, hashed.(stack := file.stack));
  }

  lemma LocatedRuns(requested: string, lib: Library, r: Stacked, url: string)
    requires |r.stack| == 2 && Top(r.stack) == Files && r.data.urls == []
    requires r.data.size != 0 && r.data.known && lib.uri(url).Some?
    ensures var d := r.data.(foundFile := true, foundOurs := true, urls := [lib.uri(url).value]);
            RunFrom(requested, lib, r, Located(requested, url)) ==
            Running(r.(data := d, count := r.count + 3, owners := r.owners + [r.count]))
  {
    hide RunFrom, Step, Wrap, Open;
    var attrs: Attributes := map["name" := requested];
    var d := r.data.(foundFile := true, foundOurs := true);
    TagsOpen(requested, r.data);
    TagsOpen(requested, d);
    var file := Inside(r, "file", attrs, File, d);
    var resources := Inside(file, "resources", map[], Resources, d);
    LeafRuns(requested, lib, resources, "url", URL_OK, url, Url, d);
    var found := resources.(data := d.(urls := [lib.uri(url).value]), count := r.count + 3,
                            owners := r.owners + [r.count]);
    WrapRuns(requested, lib, file, "resources", map[], Wrap("url", URL_OK, [Words(url)]), Resources, d, found);
    WrapRuns(requested, lib, r, "file", attrs, Wrap("resources", map[], Wrap("url", URL_OK, [Words(url)])),
             File, d, found.(stack := file.stack));
  }

  /**
   The size and the hash of one <file> element are used with the URL of another: the document is
   accepted, its URL belongs to the element with number 6, its size and hash to that with number 2.
   */
  lemma MixedIsAccepted(requested: string, lib: Library, size: string, hash: string, url: string)
    requires lib.number(size) != 0 && lib.uri(url).Some? && HexChecksum(hash, 64)
    ensures var o := Run(requested, lib, Mixed(requested, size, hash, url));
            && o.Running? && o.r.stack == [] && Usable(o.r.data)
            && o.r.data.urls == [lib.uri(url).value] && o.r.owners == [6]
            && o.r.data.size == lib.number(size) && o.r.marks == map[SizeText := 2, Sha256Text := 2]
  {
    hide RunFrom, Step, Wrap;
    var metalink := Inside(START, "metalink", map[], Metalink, NOTHING);
    var files := Inside(metalink, "files", map[], Files, NOTHING);
    DescribedRuns(requested, lib, files, size, hash);
    var described := RunFrom(requested, lib, files, Described(requested, size, hash)).r;
    LocatedRuns(requested, lib, described, url);
    RunFromConcat(requested, lib, files, Described(requested, size, hash), Located(requested, url));
    var both := RunFrom(requested, lib, described, Located(requested, url)).r;
    WrapRuns(requested, lib, metalink, "files", map[], Described(requested, size, hash) + Located(requested, url),
             Files, NOTHING, both);
    WrapRuns(requested, lib, START, "metalink", map[],
             Wrap("files", map[], Described(requested, size, hash) + Located(requested, url)),
             Metalink, NOTHING, both.(stack := metalink.stack));
    RunOn(requested, lib, [], Mixed(requested, size, hash, url));
    assert [] + Mixed(requested, size, hash, url) == Mixed(requested, size, hash, url);
  }
}
