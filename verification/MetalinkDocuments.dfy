/**
 What the parser makes of a whole document, said of the document itself: of its elements and
 their texts, without events, states on a stack, or skip counters.
 */
module MetalinkDocuments {
  import opened Options
  import opened Metalinks
  import opened MetalinkOwners

  // --- the meaning of content, element by element -------------------------------------------------

  /** What content does to the data where it stands; nothing if the parser refuses it. */
  function Meaning(requested: string, lib: Library, s: State, d: Data, items: seq<Item>): Option<Data>
    decreases items
  {
    if items == [] then Some(d)
    else
      match items[0]
      case Chars(text) => Meaning(requested, lib, s, Read(lib, s, d, text), items[1..])
      case Element(name, attrs, content) =>
        if s == Passthrough then Meaning(requested, lib, s, d, items[1..])
        else
          match Open(requested, s, d, name, attrs)
          case Failed => None
          case Enter(s', d') =>
            match Meaning(requested, lib, s', d', content)
            case None => None
            case Some(d'') => Meaning(requested, lib, s, d'', items[1..])
  }

  /** Ignored content means nothing. */
  lemma {:induction false} IgnoredMeansNothing(requested: string, lib: Library, d: Data, items: seq<Item>)
    ensures Meaning(requested, lib, Passthrough, d, items) == Some(d)
  {
    if items != [] { IgnoredMeansNothing(requested, lib, d, items[1..]); }
  }

  /** The run over content is its meaning. */
  ghost predicate RunsAs(requested: string, lib: Library, r: Stacked, events: seq<Event>, d: Option<Data>) {
    var o := RunFrom(requested, lib, r, events);
    && (o.Running? <==> d.Some?)
    && (o.Running? ==> o.r.stack == r.stack && o.r.data == d.value)
  }

  lemma {:induction false} ContentMeans(requested: string, lib: Library, r: Stacked, items: seq<Item>)
    ensures RunsAs(requested, lib, r, Events(items), Meaning(requested, lib, Top(r.stack), r.data, items))
    decreases items, 0
  {
    hide Open, Read, Step;
    if items != [] {
      match items[0]
      case Chars(text) => TextMeans(requested, lib, r, items);
      case Element(name, attrs, content) =>
        var inner := [StartTag(name, attrs)] + Events(content) + [EndTag];
        ElementMeans(requested, lib, r, name, attrs, content);
        RunFromConcat(requested, lib, r, inner, Events(items[1..]));
        var o := RunFrom(requested, lib, r, inner);
        if o.Running? { ContentMeans(requested, lib, o.r, items[1..]); }
    }
  }

  lemma {:induction false} TextMeans(requested: string, lib: Library, r: Stacked, items: seq<Item>)
    requires items != [] && items[0].Chars?
    ensures RunsAs(requested, lib, r, Events(items), Meaning(requested, lib, Top(r.stack), r.data, items))
    decreases items[1..], 1
  {
    hide Open, Read;
    var words := [Words(items[0].text)];
    var r1 := Step(requested, lib, r, words[0]).r;
    assert Events(items) == words + Events(items[1..]);
    assert (words + Events(items[1..]))[1..] == Events(items[1..]);
    ContentMeans(requested, lib, r1, items[1..]);
  }

  /** What an element means where it stands. */
  function ElementMeaning(requested: string, lib: Library, s: State, d: Data, name: string, attrs: Attributes, content: seq<Item>): Option<Data> {
    if s == Passthrough then Some(d)
    else
      match Open(requested, s, d, name, attrs)
      case Failed => None
      case Enter(s', d') => Meaning(requested, lib, s', d', content)
  }

  lemma {:induction false} ElementMeans(requested: string, lib: Library, r: Stacked, name: string, attrs: Attributes, content: seq<Item>)
    ensures RunsAs(requested, lib, r, [StartTag(name, attrs)] + Events(content) + [EndTag],
                   ElementMeaning(requested, lib, Top(r.stack), r.data, name, attrs, content))
    decreases content, 1
  {
    hide Open, Read;
    var start := [StartTag(name, attrs)];
    ElementReturns(requested, lib, r, name, attrs, content);
    RunFromConcat(requested, lib, r, start + Events(content), [EndTag]);
    RunFromConcat(requested, lib, r, start, Events(content));
    assert start[1..] == [] && [EndTag][1..] == [];
    var o := Step(requested, lib, r, start[0]);
    if o.Running? {
      assert RunFrom(requested, lib, r, start) == o;
      ContentMeans(requested, lib, o.r, content);
      if Top(r.stack) == Passthrough { IgnoredMeansNothing(requested, lib, r.data, content); }
    }
  }

  /** The parser computes the meaning of the document. */
  lemma DocumentMeans(requested: string, lib: Library, items: seq<Item>)
    ensures var o, d := Run(requested, lib, Events(items)), Meaning(requested, lib, Initial, NOTHING, items);
            (o.Running? <==> d.Some?) && (o.Running? ==> o.r.stack == [] && o.r.data == d.value)
  {
    hide Meaning, RunFrom;
    ContentMeans(requested, lib, START, items);
    RunOn(requested, lib, [], Events(items));
    assert [] + Events(items) == Events(items);
  }

  // --- the texts that count -----------------------------------------------------------------------

  /** A text that is taken: as the size, as a hash, or as a URL. */
  datatype Piece = Text(kind: Kind, text: string) | Link(text: string)

  /** What an element counts as below a <file>, whatever has been collected. */
  function Inner(s: State, name: string, attrs: Attributes): State {
    match s
    case File =>
      if name == "size" then Size else if name == "verification" then Verification
      else if name == "resources" then Resources else Passthrough
    case Verification => if name == "hash" then Hash else Passthrough
    case Resources =>
      if name == "url" && "protocol" in attrs && attrs["protocol"] in {"http", "https"} then Url else Passthrough
    case _ => Passthrough
  }

  /** The kind of hash that a <hash> element announces. */
  function Announced(attrs: Attributes): Option<Kind> {
    if "type" !in attrs then None
    else if attrs["type"] == "sha256" then Some(Sha256Text)
    else if attrs["type"] == "sha512" then Some(Sha512Text)
    else None
  }

  function PieceOf(s: State, hash: Option<Kind>, text: string): seq<Piece> {
    match s
    case Size => [Text(SizeText, text)]
    case Hash => if hash.Some? then [Text(hash.value, text)] else []
    case Url => [Link(text)]
    case _ => []
  }

  /** The texts taken from content below a <file>, in order. */
  function Pieces(s: State, hash: Option<Kind>, items: seq<Item>): seq<Piece>
    decreases items
  {
    if items == [] then []
    else
      (match items[0]
       case Chars(text) => PieceOf(s, hash, text)
       case Element(name, attrs, content) => Pieces(Inner(s, name, attrs), Announced(attrs), content))
      + Pieces(s, hash, items[1..])
  }

  lemma {:induction false} NoPieces(hash: Option<Kind>, items: seq<Item>)
    ensures Pieces(Passthrough, hash, items) == []
    decreases items
  {
    if items != [] {
      NoPieces(hash, items[1..]);
      if items[0].Element? { NoPieces(Announced(items[0].attrs), items[0].content); }
    }
  }

  /** The data without the flags that only steer the parser. */
  function Bare(d: Data): Data {
    d.(foundFile := false, foundOurs := false, known := false, kind := Sha256)
  }

  function Put(lib: Library, d: Data, p: Piece): Data {
    match p
    case Text(SizeText, text) => d.(size := lib.number(text))
    case Text(Sha256Text, text) => d.(sha256 := Some(text))
    case Text(Sha512Text, text) => d.(sha512 := Some(text))
    case Link(text) => (match lib.uri(text) case None => d case Some(u) => d.(urls := d.urls + [u]))
  }

  function PutAll(lib: Library, d: Data, ps: seq<Piece>): Data
    decreases |ps|
  {
    if ps == [] then d else PutAll(lib, Put(lib, d, ps[0]), ps[1..])
  }

  lemma {:induction false} PutConcat(lib: Library, d: Data, a: seq<Piece>, b: seq<Piece>)
    ensures PutAll(lib, d, a + b) == PutAll(lib, PutAll(lib, d, a), b)
    decreases |a|
  {
    if a == [] {
      assert a + b == b;
    } else {
      assert (a + b)[0] == a[0] && (a + b)[1..] == a[1..] + b;
      PutConcat(lib, Put(lib, d, a[0]), a[1..], b);
    }
  }

  lemma ReadIsPut(lib: Library, s: State, d: Data, text: string, hash: Option<Kind>)
    requires s == Hash ==> hash == Takes(Hash, d)
    ensures Bare(Read(lib, s, d, text)) == PutAll(lib, Bare(d), PieceOf(s, hash, text))
    ensures Read(lib, s, d, text).known == d.known && Read(lib, s, d, text).kind == d.kind
  {
    var ps := PieceOf(s, hash, text);
    assert ps != [] ==> ps[1..] == [];
  }

  predicate BelowFiles(s: State) {
    s in {File, Size, Verification, Hash, Resources, Url, Passthrough}
  }

  lemma OpenIsInner(requested: string, s: State, d: Data, name: string, attrs: Attributes)
    requires BelowFiles(s) && s != Passthrough && Open(requested, s, d, name, attrs).Enter?
    ensures var o := Open(requested, s, d, name, attrs);
            && o.state == Inner(s, name, attrs) && BelowFiles(o.state) && Bare(o.data) == Bare(d)
            && (o.state == Hash ==> Takes(Hash, o.data) == Announced(attrs))
            && (s == Hash ==> o.state == Passthrough && o.data == d)
  {
  }

  /** Below a <file>, content does what its texts do. */
  lemma {:induction false} MeansPieces(requested: string, lib: Library, s: State, d: Data, hash: Option<Kind>, items: seq<Item>)
    requires BelowFiles(s) && (s == Hash ==> hash == Takes(Hash, d))
    requires Meaning(requested, lib, s, d, items).Some?
    ensures var d' := Meaning(requested, lib, s, d, items).value;
            && Bare(d') == PutAll(lib, Bare(d), Pieces(s, hash, items))
            && (s == Hash ==> Takes(Hash, d') == Takes(Hash, d))
    decreases items
  {
    hide Open, Read, Bare, Put, PutAll, Inner, Announced, PieceOf;
    if s == Passthrough {
      IgnoredMeansNothing(requested, lib, d, items);
      NoPieces(hash, items);
      NothingPut(lib, Bare(d));
    } else if items == [] {
      NothingPut(lib, Bare(d));
    } else {
      var rest := items[1..];
      match items[0]
      case Chars(text) =>
        var d1 := Read(lib, s, d, text);
        ReadIsPut(lib, s, d, text, hash);
        MeansPieces(requested, lib, s, d1, hash, rest);
        PutConcat(lib, Bare(d), PieceOf(s, hash, text), Pieces(s, hash, rest));
      case Element(name, attrs, content) =>
        var o := Open(requested, s, d, name, attrs);
        OpenIsInner(requested, s, d, name, attrs);
        MeansPieces(requested, lib, o.state, o.data, Announced(attrs), content);
        if s == Hash { IgnoredMeansNothing(requested, lib, o.data, content); }
        var d1 := Meaning(requested, lib, o.state, o.data, content).value;
        MeansPieces(requested, lib, s, d1, hash, rest);
        PutConcat(lib, Bare(d), Pieces(o.state, Announced(attrs), content), Pieces(s, hash, rest));
    }
  }

  lemma NothingPut(lib: Library, d: Data)
    ensures PutAll(lib, d, []) == d
  {
  }

  // --- the <file> elements of a document ----------------------------------------------------------

  /** The texts of each <file> element of the requested name, in document order. */
  function Candidates(requested: string, s: State, items: seq<Item>): seq<seq<Piece>>
    decreases items
  {
    if items == [] then []
    else
      (match items[0]
       case Chars(_) => []
       case Element(name, attrs, content) =>
         if s == Initial && name == "metalink" then Candidates(requested, Metalink, content)
         else if s == Metalink && name == "files" then Candidates(requested, Files, content)
         else if s == Files && name == "file" && "name" in attrs && attrs["name"] == requested
         then [Pieces(File, None, content)] else [])
      + Candidates(requested, s, items[1..])
  }

  /** They are taken one after the other until there is a URL. */
  function UntilUrl(lib: Library, d: Data, fs: seq<seq<Piece>>): Data
    decreases |fs|
  {
    if fs == [] || d.urls != [] then d else UntilUrl(lib, PutAll(lib, d, fs[0]), fs[1..])
  }

  lemma {:induction false} UntilUrlConcat(lib: Library, d: Data, a: seq<seq<Piece>>, b: seq<seq<Piece>>)
    ensures UntilUrl(lib, d, a + b) == UntilUrl(lib, UntilUrl(lib, d, a), b)
    decreases |a|
  {
    if a == [] {
      assert a + b == b;
    } else if d.urls == [] {
      assert (a + b)[0] == a[0] && (a + b)[1..] == a[1..] + b;
      UntilUrlConcat(lib, PutAll(lib, d, a[0]), a[1..], b);
    }
  }

  predicate AboveFile(s: State) {
    s in {Initial, Metalink, Files}
  }

  lemma CandidatesStep(requested: string, s: State, items: seq<Item>)
    requires items != []
    ensures Candidates(requested, s, items) ==
            Candidates(requested, s, [items[0]]) + Candidates(requested, s, items[1..])
  {
    assert [items[0]][1..] == [];
  }

  /** Above a <file>, content does what the candidates in it do. */
  lemma {:induction false} MeansCandidates(requested: string, lib: Library, s: State, d: Data, items: seq<Item>)
    requires AboveFile(s) && Meaning(requested, lib, s, d, items).Some?
    ensures Bare(Meaning(requested, lib, s, d, items).value) == UntilUrl(lib, Bare(d), Candidates(requested, s, items))
    decreases items, 0
  {
    hide Open, Read, Bare, UntilUrl, PutAll, Candidates;
    if items == [] {
      NoCandidates(requested, lib, s, Bare(d));
    } else {
      var rest := items[1..];
      CandidatesStep(requested, s, items);
      match items[0]
      case Chars(text) =>
        TextAboveFile(requested, lib, s, d, text);
        MeansCandidates(requested, lib, s, d, rest);
        assert Candidates(requested, s, items) == Candidates(requested, s, rest);
      case Element(name, attrs, content) =>
        var o := Open(requested, s, d, name, attrs);
        ElementCandidates(requested, lib, s, d, name, attrs, content);
        var d1 := Meaning(requested, lib, o.state, o.data, content).value;
        MeansCandidates(requested, lib, s, d1, rest);
        UntilUrlConcat(lib, Bare(d), Candidates(requested, s, [items[0]]), Candidates(requested, s, rest));
    }
  }

  lemma NoCandidates(requested: string, lib: Library, s: State, d: Data)
    ensures UntilUrl(lib, d, Candidates(requested, s, [])) == d
  {
  }

  lemma TextAboveFile(requested: string, lib: Library, s: State, d: Data, text: string)
    requires AboveFile(s)
    ensures Read(lib, s, d, text) == d && Candidates(requested, s, [Chars(text)]) == []
  {
    assert [Chars(text)][1..] == [];
  }

  lemma OneCandidate(requested: string, s: State, name: string, attrs: Attributes, content: seq<Item>)
    ensures Candidates(requested, s, [Element(name, attrs, content)]) ==
            if s == Initial && name == "metalink" then Candidates(requested, Metalink, content)
            else if s == Metalink && name == "files" then Candidates(requested, Files, content)
            else if s == Files && name == "file" && "name" in attrs && attrs["name"] == requested
            then [Pieces(File, None, content)] else []
  {
    hide Pieces;
    var one := [Element(name, attrs, content)];
    assert one[0] == Element(name, attrs, content) && one[1..] == [];
    assert Candidates(requested, s, one[1..]) == [];
  }

  lemma {:induction false} ElementCandidates(requested: string, lib: Library, s: State, d: Data, name: string, attrs: Attributes, content: seq<Item>)
    requires AboveFile(s) && Open(requested, s, d, name, attrs).Enter?
    requires var o := Open(requested, s, d, name, attrs); Meaning(requested, lib, o.state, o.data, content).Some?
    ensures var o := Open(requested, s, d, name, attrs);
            Bare(Meaning(requested, lib, o.state, o.data, content).value) ==
            UntilUrl(lib, Bare(d), Candidates(requested, s, [Element(name, attrs, content)]))
    decreases content, 1
  {
    hide Meaning, Pieces, PutAll, Candidates;
    OneCandidate(requested, s, name, attrs, content);
    var one := [Element(name, attrs, content)];
    var o := Open(requested, s, d, name, attrs);
    var c := Candidates(requested, s, one);
    if o.state == Passthrough {
      IgnoredMeansNothing(requested, lib, o.data, content);
      assert c == [] || d.urls != [];
    } else if o.state == File {
      MeansPieces(requested, lib, File, o.data, None, content);
      assert c == [Pieces(File, None, content)] && c[1..] == [];
      assert UntilUrl(lib, Bare(d), c) == UntilUrl(lib, PutAll(lib, Bare(d), c[0]), []);
    } else {
      MeansCandidates(requested, lib, o.state, o.data, content);
      assert c == Candidates(requested, o.state, content);
    }
  }

  // --- which element decides ----------------------------------------------------------------------

  /** The last text of a kind, if there is one. */
  function LastOf(ps: seq<Piece>, k: Kind): Option<string> {
    if ps == [] then None
    else if ps[|ps| - 1].Text? && ps[|ps| - 1].kind == k then Some(ps[|ps| - 1].text)
    else LastOf(ps[..|ps| - 1], k)
  }

  /** The URLs among the texts. */
  function Links(lib: Library, ps: seq<Piece>): seq<Uri> {
    if ps == [] then []
    else
      Links(lib, ps[..|ps| - 1])
      + if ps[|ps| - 1].Link? && lib.uri(ps[|ps| - 1].text).Some? then [lib.uri(ps[|ps| - 1].text).value] else []
  }

  predicate SameValue(d: Data, e: Data, k: Kind) {
    match k
    case SizeText => d.size == e.size
    case Sha256Text => d.sha256 == e.sha256
    case Sha512Text => d.sha512 == e.sha512
  }

  lemma {:induction false} PutDecides(lib: Library, d: Data, ps: seq<Piece>, k: Kind)
    ensures var d' := PutAll(lib, d, ps);
            && d'.urls == d.urls + Links(lib, ps)
            && match LastOf(ps, k) case Some(text) => Holds(lib, d', k, text) case None => SameValue(d', d, k)
    decreases |ps|
  {
    if ps != [] {
      var init, last := ps[..|ps| - 1], ps[|ps| - 1];
      assert ps == init + [last] && [last][1..] == [];
      PutDecides(lib, d, init, k);
      PutConcat(lib, d, init, [last]);
      assert PutAll(lib, PutAll(lib, d, init), [last]) == Put(lib, PutAll(lib, d, init), last);
    }
  }

  /** Everything that the elements before hold, taken in order. */
  function Before(lib: Library, fs: seq<seq<Piece>>): Data {
    if fs == [] then NOTHING else PutAll(lib, Before(lib, fs[..|fs| - 1]), fs[|fs| - 1])
  }

  /** The first element with a URL ends the reading. */
  lemma {:induction false} FirstUrl(lib: Library, fs: seq<seq<Piece>>, i: nat) returns (j: nat)
    requires i <= |fs| && (forall h :: 0 <= h < i ==> Links(lib, fs[h]) == [])
    requires Before(lib, fs[..i]).urls == [] && UntilUrl(lib, Before(lib, fs[..i]), fs[i..]).urls != []
    ensures i <= j < |fs| && Links(lib, fs[j]) != [] && forall h :: 0 <= h < j ==> Links(lib, fs[h]) == []
    ensures Before(lib, fs[..j]).urls == []
    ensures UntilUrl(lib, Before(lib, fs[..i]), fs[i..]) == PutAll(lib, Before(lib, fs[..j]), fs[j])
    decreases |fs| - i
  {
    hide PutAll, Links;
    var d := Before(lib, fs[..i]);
    var d' := PutAll(lib, d, fs[i]);
    assert fs[i..][1..] == fs[i + 1..] && fs[..i + 1][..i] == fs[..i];
    assert Before(lib, fs[..i + 1]) == d';
    PutDecides(lib, d, fs[i], SizeText);
    if Links(lib, fs[i]) == [] {
      j := FirstUrl(lib, fs, i + 1);
    } else {
      j := i;
    }
  }

  /**
   In a document that gives a URL, all URLs are those of the first candidate that has one. Its size
   and each of its hashes come from that element exactly when the element has such a text; otherwise
   they are what the elements before it left.
   */
  lemma DocumentDecides(requested: string, lib: Library, items: seq<Item>) returns (j: nat)
    requires Run(requested, lib, Events(items)).Running? && Run(requested, lib, Events(items)).r.data.urls != []
    ensures var d, fs := Run(requested, lib, Events(items)).r.data, Candidates(requested, Initial, items);
            && j < |fs| && Links(lib, fs[j]) != [] && (forall h :: 0 <= h < j ==> Links(lib, fs[h]) == [])
            && d.urls == Links(lib, fs[j])
            && forall k :: match LastOf(fs[j], k)
                           case Some(text) => Holds(lib, d, k, text)
                           case None => SameValue(d, Before(lib, fs[..j]), k)
  {
    hide Run, Meaning, Candidates, PutAll, Links, UntilUrl, LastOf;
    DocumentMeans(requested, lib, items);
    MeansCandidates(requested, lib, Initial, NOTHING, items);
    var d, fs := Run(requested, lib, Events(items)).r.data, Candidates(requested, Initial, items);
    assert fs[..0] == [] && fs[0..] == fs;
    j := FirstUrl(lib, fs, 0);
    forall k
      ensures match LastOf(fs[j], k)
              case Some(text) => Holds(lib, d, k, text)
              case None => SameValue(d, Before(lib, fs[..j]), k)
    {
      PutDecides(lib, Before(lib, fs[..j]), fs[j], k);
    }
    PutDecides(lib, Before(lib, fs[..j]), fs[j], SizeText);
  }
}
