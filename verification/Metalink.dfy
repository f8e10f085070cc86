/**
 The metalink parser of src/libostree/ostree-metalink.c: a state machine without a stack,
 shown to follow the true stack of open elements.
 */
module Metalinks {
  import opened Options

  /** The parser states; `Passthrough` ignores an element and everything in it. */
  datatype State =
    | Initial | Metalink | Files | File | Size | Verification | Hash | Resources | Url | Passthrough

  datatype HashKind = Sha256 | Sha512

  type Uri = string
  type Attributes = map<string, string>

  /** The conversions that libraries do: reading a number, and parsing a URI. */
  datatype Library = Library(number: string -> nat, uri: string -> Option<Uri>)

  /** What has been collected so far. */
  datatype Data = Data(
    foundFile: bool, foundOurs: bool, known: bool, kind: HashKind,
    size: nat, sha256: Option<string>, sha512: Option<string>, urls: seq<Uri>)

  const NOTHING := Data(false, false, false, Sha256, 0, None, None, [])

  // --- what an element means where it stands ------------------------------------------------

  datatype Opened = Failed | Enter(state: State, data: Data)

  const URL_ATTRIBUTES := {"protocol", "type", "location", "preference"}

  /** The state an opening tag leads to from a state that is not being ignored. */
  function Open(requested: string, s: State, d: Data, name: string, attrs: Attributes): Opened {
    match s
    case Initial => Enter(if name == "metalink" then Metalink else Passthrough, d)
    case Metalink => Enter(if name == "files" then Files else Passthrough, d)
    case Files =>
      if d.urls != [] || name != "file" then Enter(Passthrough, d)
      else if attrs.Keys != {"name"} then Failed
      else if attrs["name"] != requested then Enter(Passthrough, d.(foundFile := true))
      else Enter(File, d.(foundFile := true, foundOurs := true))
    case File =>
      Enter(if name == "size" then Size else if name == "verification" then Verification
            else if name == "resources" then Resources else Passthrough, d)
    case Verification =>
      if name != "hash" then Enter(Passthrough, d)
      else if attrs.Keys != {"type"} then Failed
      else if attrs["type"] == "sha256" then Enter(Hash, d.(known := true, kind := Sha256))
      else if attrs["type"] == "sha512" then Enter(Hash, d.(known := true, kind := Sha512))
      else Enter(Hash, d.(known := false))
    case Resources =>
      if d.size == 0 || !d.known then Failed
      else if name != "url" then Enter(Passthrough, d)
      else if attrs.Keys != URL_ATTRIBUTES then Failed
      else Enter(if attrs["protocol"] in {"http", "https"} then Url else Passthrough, d)
    case _ => Enter(Passthrough, d)
  }

  /** The state an element of the given state stands in. */
  function Outer(s: State): State {
    match s
    case Files => Metalink
    case File => Files
    case Size | Verification | Resources => File
    case Hash => Verification
    case Url => Resources
    case _ => Initial
  }

  /** What text means in each state. */
  function Read(lib: Library, s: State, d: Data, text: string): Data {
    match s
    case Size => d.(size := lib.number(text))
    case Hash =>
      if !d.known then d
      else if d.kind == Sha256 then d.(sha256 := Some(text)) else d.(sha512 := Some(text))
    case Url =>
      (match lib.uri(text)
       case None => d
       case Some(u) => d.(urls := d.urls + [u]))
    case _ => d
  }

  // --- the parser ---------------------------------------------------------------------------

  class Request {
    const requested: string
    const lib: Library
    var state: State
    var previous: State
    var depth: nat
    var data: Data

    /** What the assertions in the code rely on. */
    ghost predicate Valid()
      reads this
    {
      if state == Passthrough then previous != Passthrough else depth == 0
    }

    constructor (requested: string, lib: Library)
      ensures Valid() && this.requested == requested && this.lib == lib
      ensures state == Initial && data == NOTHING
    {
      this.requested, this.lib := requested, lib;
      state, previous, depth, data := Initial, Initial, 0, NOTHING;
    }

    /** state_transition; its assertion is the precondition. */
    method Transition(next: State)
      requires state != next
      modifies this`state, this`previous
      ensures state == next && previous == if next == Passthrough then old(state) else old(previous)
    {
      if next == Passthrough {
        previous := state;
      }
      state := next;
    }

    method Start(name: string, attrs: Attributes) returns (ok: bool)
      requires Valid()
      modifies this`state, this`previous, this`depth, this`data
      ensures old(state) == Passthrough ==>
                ok && state == Passthrough && previous == old(previous) && depth == old(depth) + 1 && data == old(data)
      ensures old(state) != Passthrough ==>
                match Open(requested, old(state), old(data), name, attrs)
                case Failed => !ok
                case Enter(s, d) =>
                  ok && state == s && data == d && depth == 0 && (s == Passthrough ==> previous == old(state))
      ensures ok ==> Valid()
    {
      if state == Passthrough {
        depth := depth + 1;
        return true;
      }
      var next := Passthrough;
      match state {
        case Initial => if name == "metalink" { next := Metalink; }
        case Metalink => if name == "files" { next := Files; }
        case Files =>
          if data.urls == [] && name == "file" {
            if attrs.Keys != {"name"} {
              return false;
            }
            data := data.(foundFile := true);
            if attrs["name"] == requested {
              data := data.(foundOurs := true);
              next := File;
            }
          }
        case File =>
          if name == "size" {
            next := Size;
          } else if name == "verification" {
            next := Verification;
          } else if name == "resources" {
            next := Resources;
          }
        case Verification =>
          if name == "hash" {
            next := Hash;
            if attrs.Keys != {"type"} {
              return false;
            }
            data := data.(known := true);
            if attrs["type"] == "sha256" {
              data := data.(kind := Sha256);
            } else if attrs["type"] == "sha512" {
              data := data.(kind := Sha512);
            } else {
              data := data.(known := false);
            }
          }
        case Resources =>
          if data.size == 0 || !data.known {
            return false;
          }
          if name == "url" {
            if attrs.Keys != URL_ATTRIBUTES {
              return false;
            }
            if attrs["protocol"] == "http" || attrs["protocol"] == "https" {
              next := Url;
            }
          }
        case _ =>
      }
      Transition(next);
      return true;
    }

    method End()
      requires Valid()
      modifies this`state, this`previous, this`depth
      ensures Valid() && previous == old(previous)
      ensures if old(state) != Passthrough then state == Outer(old(state)) && depth == 0
              else if old(depth) > 0 then state == Passthrough && depth == old(depth) - 1
              else state == old(previous) && depth == 0
    {
      match state {
        case Initial =>
        case Passthrough =>
          if depth > 0 {
            depth := depth - 1;
          } else {
            Transition(previous);
          }
        case Metalink => Transition(Initial);
        case Files => Transition(Metalink);
        case File => Transition(Files);
        case Size => Transition(File);
        case Verification => Transition(File);
        case Resources => Transition(File);
        case Hash => Transition(Verification);
        case Url => Transition(Resources);
      }
    }

    method Text(text: string)
      requires Valid()
      modifies this`data
      ensures Valid() && data == Read(lib, state, old(data), text)
    {
      match state {
        case Size => data := data.(size := lib.number(text));
        case Hash =>
          if data.known {
            match data.kind
            case Sha256 => data := data.(sha256 := Some(text));
            case Sha512 => data := data.(sha512 := Some(text));
          }
        case Url =>
          var uri := lib.uri(text);
          if uri.Some? {
            data := data.(urls := data.urls + [uri.value]);
          }
        case _ =>
      }
    }
  }

  // --- the true stack of open elements --------------------------------------------------------

  datatype Event = StartTag(name: string, attrs: Attributes) | EndTag | Words(text: string)

  /** An open element: its tag, what it counts as, and its number among all elements. */
  datatype Frame = Frame(name: string, attrs: Attributes, state: State, id: nat)

  /** The texts of which only the last one counts. */
  datatype Kind = SizeText | Sha256Text | Sha512Text

  /** Which of these a text is taken as. */
  function Takes(s: State, d: Data): Option<Kind> {
    match s
    case Size => Some(SizeText)
    case Hash => if !d.known then None else Some(if d.kind == Sha256 then Sha256Text else Sha512Text)
    case _ => None
  }

  /**
   The reference parser: it keeps the stack, and the <file> that each URL came from, and that
   the last text of each kind came from.
   */
  datatype Stacked = Stacked(stack: seq<Frame>, data: Data, count: nat, owners: seq<nat>, marks: map<Kind, nat>)

  datatype Outcome = Running(r: Stacked) | Refused | Unnested

  const START := Stacked([], NOTHING, 0, [], map[])

  function Top(stack: seq<Frame>): State {
    if stack == [] then Initial else stack[|stack| - 1].state
  }

  function Step(requested: string, lib: Library, r: Stacked, e: Event): Outcome {
    match e
    case StartTag(name, attrs) =>
      var o := if Top(r.stack) == Passthrough then Enter(Passthrough, r.data)
               else Open(requested, Top(r.stack), r.data, name, attrs);
      (match o
       case Failed => Refused
       case Enter(s, d) =>
         Running(r.(stack := r.stack + [Frame(name, attrs, s, r.count)], data := d, count := r.count + 1)))
    case EndTag =>
      if r.stack == [] then Unnested else Running(r.(stack := r.stack[..|r.stack| - 1]))
    case Words(text) =>
      var d := Read(lib, Top(r.stack), r.data, text);
      Running(r.(data := d,
                 owners := if |d.urls| > |r.data.urls| && |r.stack| > 2 then r.owners + [r.stack[2].id] else r.owners,
                 marks := MarkedBy(r)))
  }

  function MarkedBy(r: Stacked): map<Kind, nat> {
    var kind := Takes(Top(r.stack), r.data);
    if kind.Some? && |r.stack| > 2 then r.marks[kind.value := r.stack[2].id] else r.marks
  }

  function Run(requested: string, lib: Library, events: seq<Event>): Outcome {
    if events == [] then Running(START)
    else
      match Run(requested, lib, events[..|events| - 1])
      case Running(r) => Step(requested, lib, r, events[|events| - 1])
      case other => other
  }

  // --- what holds of every stack the reference parser builds ----------------------------------

  /** The position of the first ignored element, or the height of the stack. */
  function Ignored(stack: seq<Frame>): (i: nat)
    ensures i <= |stack| && (i < |stack| ==> stack[i].state == Passthrough)
    ensures forall j :: 0 <= j < i ==> stack[j].state != Passthrough
  {
    if stack == [] then 0
    else
      var i := Ignored(stack[..|stack| - 1]);
      if i < |stack| - 1 || stack[|stack| - 1].state == Passthrough then i else |stack|
  }

  function Tag(s: State): string {
    match s
    case Metalink => "metalink"
    case Files => "files"
    case File => "file"
    case Size => "size"
    case Verification => "verification"
    case Hash => "hash"
    case Resources => "resources"
    case Url => "url"
    case _ => ""
  }

  /** An element that is not ignored has the right tag, inside the element its state stands in. */
  ghost predicate FrameOk(requested: string, stack: seq<Frame>, i: nat)
    requires i < |stack|
  {
    var f := stack[i];
    && f.state != Initial
    && (f.state != Passthrough ==> f.name == Tag(f.state) && Outer(f.state) == Top(stack[..i]))
    && (f.state == File ==> "name" in f.attrs && f.attrs["name"] == requested)
    && (i > 0 && stack[i - 1].state == Passthrough ==> f.state == Passthrough)
  }

  ghost predicate StackOk(requested: string, stack: seq<Frame>) {
    forall i :: 0 <= i < |stack| ==> FrameOk(requested, stack, i)
  }

  /** All URLs so far come from one <file> element; from the open one, if one is open. */
  ghost predicate OwnersOk(r: Stacked) {
    && |r.owners| == |r.data.urls|
    && (forall i, j :: 0 <= i < |r.owners| && 0 <= j < |r.owners| ==> r.owners[i] == r.owners[j])
    && (|r.stack| > 2 && r.stack[2].state == File ==> forall i :: 0 <= i < |r.owners| ==> r.owners[i] == r.stack[2].id)
  }

  lemma StackPush(requested: string, stack: seq<Frame>, f: Frame)
    requires StackOk(requested, stack) && FrameOk(requested, stack + [f], |stack|)
    ensures StackOk(requested, stack + [f])
  {
    forall i | 0 <= i < |stack|
      ensures FrameOk(requested, stack + [f], i)
    {
      assert (stack + [f])[..i] == stack[..i];
      assert FrameOk(requested, stack, i);
    }
  }

  lemma StackPop(requested: string, stack: seq<Frame>)
    requires StackOk(requested, stack) && stack != []
    ensures StackOk(requested, stack[..|stack| - 1])
  {
    var s := stack[..|stack| - 1];
    forall i | 0 <= i < |s|
      ensures FrameOk(requested, s, i)
    {
      assert s[..i] == stack[..i];
      assert FrameOk(requested, stack, i);
    }
  }

  /** The elements around one in the given state, from the outermost on. */
  function Chain(s: State): seq<State>
    decreases match s
              case Hash | Url => 4
              case Size | Verification | Resources => 3
              case File => 2
              case Files => 1
              case _ => 0
  {
    match s
    case Initial => []
    case Passthrough => []
    case Metalink => [Metalink]
    case _ => Chain(Outer(s)) + [s]
  }

  ghost function States(stack: seq<Frame>): seq<State> {
    seq(|stack|, i requires 0 <= i < |stack| => stack[i].state)
  }

  /** The state at the top tells the whole stack, when nothing is being ignored. */
  lemma {:induction false} TopTellsStack(requested: string, stack: seq<Frame>)
    requires StackOk(requested, stack) && Top(stack) != Passthrough
    ensures States(stack) == Chain(Top(stack))
  {
    if stack != [] {
      var below := stack[..|stack| - 1];
      assert FrameOk(requested, stack, |stack| - 1);
      StackPop(requested, stack);
      TopTellsStack(requested, below);
      assert States(stack) == States(below) + [Top(stack)];
    }
  }

  lemma OpenedFrameOk(requested: string, r: Stacked, name: string, attrs: Attributes, s: State, d: Data)
    requires StackOk(requested, r.stack)
    requires if Top(r.stack) == Passthrough then s == Passthrough
             else Open(requested, Top(r.stack), r.data, name, attrs) == Enter(s, d)
    ensures FrameOk(requested, r.stack + [Frame(name, attrs, s, r.count)], |r.stack|)
  {
    var stack := r.stack + [Frame(name, attrs, s, r.count)];
    assert stack[..|r.stack|] == r.stack;
    if r.stack != [] { assert FrameOk(requested, r.stack, |r.stack| - 1); }
  }

  lemma StepKeepsStack(requested: string, lib: Library, r: Stacked, e: Event)
    requires StackOk(requested, r.stack) && Step(requested, lib, r, e).Running?
    ensures StackOk(requested, Step(requested, lib, r, e).r.stack)
  {
    var r' := Step(requested, lib, r, e).r;
    match e
    case StartTag(name, attrs) =>
      var f := r'.stack[|r.stack|];
      OpenedFrameOk(requested, r, name, attrs, f.state, r'.data);
      StackPush(requested, r.stack, f);
    case EndTag => StackPop(requested, r.stack);
    case Words(_) =>
  }

  lemma StepKeepsOwners(requested: string, lib: Library, r: Stacked, e: Event)
    requires StackOk(requested, r.stack) && OwnersOk(r) && Step(requested, lib, r, e).Running?
    ensures OwnersOk(Step(requested, lib, r, e).r)
  {
    var r' := Step(requested, lib, r, e).r;
    match e
    case StartTag(_, _) =>
      if |r.stack| == 2 && r'.stack[2].state == File {
        assert Top(r.stack) == Files && r.data.urls == [];
      }
    case EndTag =>
    case Words(_) =>
      if |r'.data.urls| > |r.data.urls| {
        assert Top(r.stack) == Url;
        TopTellsStack(requested, r.stack);
        assert Chain(Url) == [Metalink, Files, File, Resources, Url];
        assert r.stack[2].state == States(r.stack)[2];
      }
  }

  /** Every reachable stack is well formed, and all URLs come from one <file> element. */
  lemma {:induction false} RunKeeps(requested: string, lib: Library, events: seq<Event>)
    requires Run(requested, lib, events).Running?
    ensures StackOk(requested, Run(requested, lib, events).r.stack) && OwnersOk(Run(requested, lib, events).r)
  {
    if events != [] {
      var before := events[..|events| - 1];
      RunKeeps(requested, lib, before);
      StepKeepsStack(requested, lib, Run(requested, lib, before).r, events[|events| - 1]);
      StepKeepsOwners(requested, lib, Run(requested, lib, before).r, events[|events| - 1]);
    }
  }

  ghost function Names(stack: seq<Frame>): seq<string> {
    seq(|stack|, i requires 0 <= i < |stack| => stack[i].name)
  }

  ghost function Tags(states: seq<State>): seq<string> {
    seq(|states|, i requires 0 <= i < |states| => Tag(states[i]))
  }

  lemma ChainsAre()
    ensures Chain(Size) == [Metalink, Files, File, Size]
    ensures Chain(Hash) == [Metalink, Files, File, Verification, Hash]
    ensures Chain(Url) == [Metalink, Files, File, Resources, Url]
  {
    assert Chain(File) == [Metalink, Files, File];
  }

  /** The open elements have exactly the tags that lead to `s`, and the third is the requested file. */
  ghost predicate InsideRequested(requested: string, stack: seq<Frame>, s: State) {
    && Names(stack) == Tags(Chain(s))
    && |stack| > 2 && "name" in stack[2].attrs && stack[2].attrs["name"] == requested
  }

  lemma TopIsInside(requested: string, stack: seq<Frame>)
    requires StackOk(requested, stack) && Top(stack) in {Size, Hash, Url}
    ensures InsideRequested(requested, stack, Top(stack))
  {
    hide Tag, Chain;
    TopTellsStack(requested, stack);
    ChainsAre();
    forall i | 0 <= i < |stack|
      ensures Names(stack)[i] == Tags(Chain(Top(stack)))[i]
    {
      assert FrameOk(requested, stack, i);
      assert States(stack)[i] == stack[i].state;
    }
    assert FrameOk(requested, stack, 2) && States(stack)[2] == stack[2].state;
  }

  /** Text is taken only at its exact path inside the requested file. */
  lemma TextTaken(requested: string, lib: Library, events: seq<Event>, text: string)
    requires Run(requested, lib, events).Running?
    ensures var r := Run(requested, lib, events).r;
            var d := Read(lib, Top(r.stack), r.data, text);
            && (d.size != r.data.size ==> InsideRequested(requested, r.stack, Size))
            && (d.sha256 != r.data.sha256 || d.sha512 != r.data.sha512 ==> InsideRequested(requested, r.stack, Hash))
            && (d.urls != r.data.urls ==> InsideRequested(requested, r.stack, Url))
  {
    hide Run, InsideRequested;
    RunKeeps(requested, lib, events);
    var stack := Run(requested, lib, events).r.stack;
    if Top(stack) in {Size, Hash, Url} { TopIsInside(requested, stack); }
  }

  // --- the machine follows the stack ----------------------------------------------------------

  /** The three control variables are a function of the stack (`previous` only while ignoring). */
  ghost predicate Follows(r: Stacked, state: State, previous: State, depth: nat, data: Data) {
    var i := Ignored(r.stack);
    && data == r.data
    && if i == |r.stack| then state == Top(r.stack) && depth == 0
       else state == Passthrough && previous == Top(r.stack[..i]) && depth == |r.stack| - i - 1
  }

  lemma FollowsPush(requested: string, r: Stacked, f: Frame)
    requires StackOk(requested, r.stack + [f])
    ensures Ignored(r.stack + [f]) == if Ignored(r.stack) < |r.stack| || f.state == Passthrough then Ignored(r.stack) else |r.stack| + 1
    ensures Ignored(r.stack) < |r.stack| ==> (r.stack + [f])[..Ignored(r.stack)] == r.stack[..Ignored(r.stack)]
  {
    assert (r.stack + [f])[..|r.stack|] == r.stack;
  }

  lemma {:induction false} IgnoredToTop(requested: string, stack: seq<Frame>)
    requires StackOk(requested, stack)
    ensures Ignored(stack) < |stack| <==> Top(stack) == Passthrough
  {
    if stack != [] {
      StackPop(requested, stack);
      IgnoredToTop(requested, stack[..|stack| - 1]);
      assert FrameOk(requested, stack, |stack| - 1);
    }
  }

  /** One event: the machine does what the reference parser does with the stack. */
  method Handle(q: Request, e: Event, ghost r: Stacked) returns (ok: bool)
    requires q.Valid() && StackOk(q.requested, r.stack) && Follows(r, q.state, q.previous, q.depth, q.data)
    modifies q
    ensures match Step(q.requested, q.lib, r, e)
            case Running(r') => ok && q.Valid() && Follows(r', q.state, q.previous, q.depth, q.data)
            case Refused => !ok
            case Unnested => ok && q.Valid()
  {
    hide Open, Read, StackOk;
    IgnoredToTop(q.requested, r.stack);
    if Step(q.requested, q.lib, r, e).Running? { StepKeepsStack(q.requested, q.lib, r, e); }
    match e {
      case StartTag(name, attrs) =>
        ok := q.Start(name, attrs);
        ghost var next := Step(q.requested, q.lib, r, e);
        if next.Running? { FollowsPush(q.requested, r, next.r.stack[|r.stack|]); }
      case EndTag =>
        if r.stack != [] { FollowsPop(q.requested, r.stack); }
        q.End();
        ok := true;
      case Words(text) =>
        q.Text(text);
        ok := true;
    }
  }

  lemma FollowsPop(requested: string, stack: seq<Frame>)
    requires StackOk(requested, stack) && stack != []
    ensures var s, i := stack[..|stack| - 1], Ignored(stack);
            && Ignored(s) == (if i < |stack| - 1 then i else |s|)
            && (i < |stack| - 1 ==> s[..i] == stack[..i])
            && (i == |stack| ==> Outer(Top(stack)) == Top(s) && Top(stack) != Initial)
            && (i == |stack| - 1 ==> Top(stack) == Passthrough && Top(stack[..i]) != Passthrough)
  {
    assert FrameOk(requested, stack, |stack| - 1);
  }

  /** How many elements are open after the events. */
  function Height(events: seq<Event>): int {
    if events == [] then 0
    else
      Height(events[..|events| - 1])
      + match events[|events| - 1] case StartTag(_, _) => 1 case EndTag => -1 case Words(_) => 0
  }

  /** No tag is closed that was not opened, as the XML reader checks. */
  predicate Nested(events: seq<Event>) {
    events == [] || (Nested(events[..|events| - 1]) && Height(events) >= 0)
  }

  lemma {:induction false} NestedRuns(requested: string, lib: Library, events: seq<Event>)
    requires Nested(events)
    ensures !Run(requested, lib, events).Unnested?
    ensures Run(requested, lib, events).Running? ==> |Run(requested, lib, events).r.stack| == Height(events)
  {
    if events != [] {
      NestedRuns(requested, lib, events[..|events| - 1]);
    }
  }

  // --- runs of the machine ----------------------------------------------------------------------

  function RunFrom(requested: string, lib: Library, r: Stacked, events: seq<Event>): Outcome
    decreases |events|
  {
    if events == [] then Running(r)
    else
      match Step(requested, lib, r, events[0])
      case Running(r') => RunFrom(requested, lib, r', events[1..])
      case other => other
  }

  lemma {:induction false} RunFromConcat(requested: string, lib: Library, r: Stacked, a: seq<Event>, b: seq<Event>)
    ensures RunFrom(requested, lib, r, a + b) ==
            match RunFrom(requested, lib, r, a)
            case Running(r') => RunFrom(requested, lib, r', b)
            case other => other
    decreases |a|
  {
    if a == [] {
      assert a + b == b;
    } else {
      assert (a + b)[0] == a[0] && (a + b)[1..] == a[1..] + b;
      var next := Step(requested, lib, r, a[0]);
      if next.Running? { RunFromConcat(requested, lib, next.r, a[1..], b); }
    }
  }

  /** A run can be cut anywhere and gone on with from the stack reached. */
  lemma {:induction false} RunOn(requested: string, lib: Library, a: seq<Event>, b: seq<Event>)
    ensures Run(requested, lib, a + b) ==
            match Run(requested, lib, a)
            case Running(r) => RunFrom(requested, lib, r, b)
            case other => other
    decreases |b|
  {
    hide Step;
    if b == [] {
      assert a + b == a;
    } else {
      var init, last := b[..|b| - 1], b[|b| - 1];
      assert (a + b)[..|a + b| - 1] == a + init && b == init + [last];
      RunOn(requested, lib, a, init);
      if Run(requested, lib, a).Running? {
        RunFromConcat(requested, lib, Run(requested, lib, a).r, init, [last]);
        assert [last][1..] == [];
      }
    }
  }

  /** From any state that follows a stack, feeding events is running the reference parser on them. */
  method FeedFrom(q: Request, events: seq<Event>, ghost r: Stacked) returns (ok: bool)
    requires q.Valid() && StackOk(q.requested, r.stack) && Follows(r, q.state, q.previous, q.depth, q.data)
    requires !RunFrom(q.requested, q.lib, r, events).Unnested?
    modifies q
    ensures ok == RunFrom(q.requested, q.lib, r, events).Running?
    ensures ok ==> q.Valid() && Follows(RunFrom(q.requested, q.lib, r, events).r, q.state, q.previous, q.depth, q.data)
  {
    hide Step, Follows, StackOk;
    ghost var now := r;
    for i := 0 to |events|
      invariant q.Valid() && StackOk(q.requested, now.stack) && Follows(now, q.state, q.previous, q.depth, q.data)
      invariant RunFrom(q.requested, q.lib, r, events) == RunFrom(q.requested, q.lib, now, events[i..])
    {
      assert events[i..][1..] == events[i + 1..];
      ghost var next := Step(q.requested, q.lib, now, events[i]);
      ok := Handle(q, events[i], now);
      if !ok {
        return;
      }
      StepKeepsStack(q.requested, q.lib, now, events[i]);
      now := next.r;
    }
    ok := true;
  }

  /** Feeding a sequence of events to the parser is running the reference parser on it. */
  method Feed(q: Request, events: seq<Event>) returns (ok: bool)
    requires q.Valid() && q.state == Initial && q.data == NOTHING
    requires Nested(events)
    modifies q
    ensures ok == Run(q.requested, q.lib, events).Running?
    ensures ok ==> q.Valid() && Follows(Run(q.requested, q.lib, events).r, q.state, q.previous, q.depth, q.data)
  {
    hide Step, Follows, Nested, RunFrom;
    FollowsStart(q.previous);
    NestedRuns(q.requested, q.lib, events);
    RunOn(q.requested, q.lib, [], events);
    assert [] + events == events;
    ok := FeedFrom(q, events, START);
  }

  lemma FollowsStart(previous: State)
    ensures Follows(START, Initial, previous, 0, NOTHING)
  {
  }

  // --- whole elements -------------------------------------------------------------------------

  datatype Item = Chars(text: string) | Element(name: string, attrs: Attributes, content: seq<Item>)

  /** The events of well-formed content. */
  function Events(items: seq<Item>): seq<Event> {
    if items == [] then []
    else
      (match items[0]
       case Chars(text) => [Words(text)]
       case Element(name, attrs, content) => [StartTag(name, attrs)] + Events(content) + [EndTag])
      + Events(items[1..])
  }

  /** Well-formed content is never unnested, and leaves the stack as it found it. */
  lemma {:induction false} ContentReturns(requested: string, lib: Library, r: Stacked, items: seq<Item>)
    ensures !RunFrom(requested, lib, r, Events(items)).Unnested?
    ensures RunFrom(requested, lib, r, Events(items)).Running? ==> RunFrom(requested, lib, r, Events(items)).r.stack == r.stack
    decreases items, 0
  {
    if items != [] {
      var rest := items[1..];
      match items[0]
      case Chars(text) =>
        var r1 := Step(requested, lib, r, Words(text)).r;
        assert ([Words(text)] + Events(rest))[1..] == Events(rest);
        ContentReturns(requested, lib, r1, rest);
      case Element(name, attrs, content) =>
        var inner := [StartTag(name, attrs)] + Events(content) + [EndTag];
        ElementReturns(requested, lib, r, name, attrs, content);
        RunFromConcat(requested, lib, r, inner, Events(rest));
        var o := RunFrom(requested, lib, r, inner);
        if o.Running? { ContentReturns(requested, lib, o.r, rest); }
    }
  }

  lemma {:induction false} ElementReturns(requested: string, lib: Library, r: Stacked, name: string, attrs: Attributes, content: seq<Item>)
    ensures var o := RunFrom(requested, lib, r, [StartTag(name, attrs)] + Events(content) + [EndTag]);
            !o.Unnested? && (o.Running? ==> o.r.stack == r.stack)
    decreases content, 1
  {
    var start := [StartTag(name, attrs)];
    RunFromConcat(requested, lib, r, start + Events(content), [EndTag]);
    RunFromConcat(requested, lib, r, start, Events(content));
    var o := Step(requested, lib, r, start[0]);
    assert start[1..] == [] && [EndTag][1..] == [];
    if o.Running? {
      assert RunFrom(requested, lib, r, start) == RunFrom(requested, lib, o.r, []);
      ContentReturns(requested, lib, o.r, content);
      assert o.r.stack[..|r.stack|] == r.stack;
    }
  }

  /** Machines that follow equal stacks have equal control variables. */
  lemma ControlReturns(r: Stacked, r': Stacked, state: State, previous: State, depth: nat, state': State, previous': State, depth': nat)
    requires Follows(r, state, previous, depth, r.data) && Follows(r', state', previous', depth', r'.data)
    requires r'.stack == r.stack
    ensures state' == state && depth' == depth
    ensures Ignored(r.stack) < |r.stack| ==> previous' == previous
  {
  }

  /** Over a whole element the machine's control variables come back to where they were. */
  method FeedElement(q: Request, name: string, attrs: Attributes, content: seq<Item>, ghost r: Stacked) returns (ok: bool)
    requires q.Valid() && StackOk(q.requested, r.stack) && Follows(r, q.state, q.previous, q.depth, q.data)
    modifies q
    ensures ok == RunFrom(q.requested, q.lib, r, [StartTag(name, attrs)] + Events(content) + [EndTag]).Running?
    ensures ok ==> q.Valid() && q.state == old(q.state) && q.depth == old(q.depth)
    ensures ok && q.state == Passthrough ==> q.previous == old(q.previous)
  {
    hide RunFrom, Events, StackOk;
    var events := [StartTag(name, attrs)] + Events(content) + [EndTag];
    ElementReturns(q.requested, q.lib, r, name, attrs, content);
    IgnoredToTop(q.requested, r.stack);
    ghost var state, previous, depth := q.state, q.previous, q.depth;
    ok := FeedFrom(q, events, r);
    if ok {
      ghost var r' := RunFrom(q.requested, q.lib, r, events).r;
      ControlReturns(r, r', state, previous, depth, q.state, q.previous, q.depth);
    }
  }

  // --- try_metalink_targets ---------------------------------------------------------------------

  type Bytes = seq<byte>

  /** Fetching a URI and hashing what came. */
  datatype Network = Network(fetch: Uri -> Option<Bytes>, sha256: Bytes -> string, sha512: Bytes -> string)

  predicate HexChecksum(s: string, len: nat) {
    |s| == len && forall c :: c in s ==> '0' <= c <= '9' || 'a' <= c <= 'f'
  }

  /** The characters a digest may have. */
  lemma HexChecksumIff(s: string, len: nat)
    ensures HexChecksum(s, len) <==> |s| == len && forall i :: 0 <= i < |s| ==> s[i] in "0123456789abcdef"
  {
    var digits := "0123456789abcdef";
    forall c: char
      ensures c in digits <==> '0' <= c <= '9' || 'a' <= c <= 'f'
    {
      if '0' <= c <= '9' { assert digits[(c - '0') as int] == c; }
      if 'a' <= c <= 'f' { assert digits[(c - 'a') as int + 10] == c; }
    }
    assert forall i :: 0 <= i < |s| ==> s[i] in s;
  }

  /** The document as a whole is usable. */
  predicate Usable(d: Data) {
    && d.foundFile && d.foundOurs && d.urls != []
    && (d.sha256.Some? || d.sha512.Some?)
    && (d.sha256.Some? ==> HexChecksum(d.sha256.value, 64))
    && (d.sha512.Some? ==> HexChecksum(d.sha512.value, 128))
  }

  /** What was fetched is what the document describes; the stronger hash decides if both are given. */
  predicate Accepted(net: Network, d: Data, u: Uri) {
    match net.fetch(u)
    case None => false
    case Some(b) =>
      && |b| == d.size
      && (if d.sha512.Some? then d.sha512.value == net.sha512(b)
          else d.sha256.Some? ==> d.sha256.value == net.sha256(b))
  }

  /** The bytes have the size given, and the SHA-512 if one is given, or else the SHA-256 if one is. */
  predicate Matches(net: Network, d: Data, b: Bytes) {
    && |b| == d.size
    && (d.sha512 != None ==> d.sha512 == Some(net.sha512(b)))
    && (d.sha512 == None && d.sha256 != None ==> d.sha256 == Some(net.sha256(b)))
  }

  method TryOneUrl(net: Network, d: Data, u: Uri) returns (r: Option<Bytes>)
    ensures r == if Accepted(net, d, u) then net.fetch(u) else None
    ensures r.Some? ==> net.fetch(u) == r && Matches(net, d, r.value)
    ensures r.None? ==> net.fetch(u).None? || !Matches(net, d, net.fetch(u).value)
  {
    r := net.fetch(u);
    if r.None? || |r.value| != d.size {
      return None;
    }
    if d.sha512.Some? {
      if d.sha512.value != net.sha512(r.value) {
        return None;
      }
    } else if d.sha256.Some? {
      if d.sha256.value != net.sha256(r.value) {
        return None;
      }
    }
  }

  /** The first URL whose contents match wins; without one, or without a usable document, none does. */
  method TryTargets(net: Network, d: Data) returns (target: Option<(Uri, Bytes)>)
    ensures target.Some? ==>
              && target.value.0 in d.urls && net.fetch(target.value.0) == Some(target.value.1)
              && Matches(net, d, target.value.1) && (d.sha256 != None || d.sha512 != None)
              && (d.sha256 != None ==> |d.sha256.value| == 64) && (d.sha512 != None ==> |d.sha512.value| == 128)
    ensures target.Some? <==> Usable(d) && exists u :: u in d.urls && Accepted(net, d, u)
    ensures target.Some? ==>
              exists i :: 0 <= i < |d.urls| && target.value.0 == d.urls[i] && Accepted(net, d, d.urls[i])
                          && net.fetch(d.urls[i]) == Some(target.value.1)
                          && forall j :: 0 <= j < i ==> !Accepted(net, d, d.urls[j])
  {
    if !Usable(d) {
      return None;
    }
    for i := 0 to |d.urls|
      invariant forall j :: 0 <= j < i ==> !Accepted(net, d, d.urls[j])
    {
      var r := TryOneUrl(net, d, d.urls[i]);
      if r.Some? {
        return Some((d.urls[i], r.value));
      }
    }
    return None;
  }
}
