/** Boot loader entries: parsing, writing, and the extra keys carried over a staged deployment. */
module Bootconfigs {
  import opened Options

  datatype Field = Field(key: string, value: string)

  // --- text to fields -------------------------------------------------------------------

  predicate IsAlpha(c: char) {
    'a' <= c <= 'z' || 'A' <= c <= 'Z'
  }

  predicate IsSeparator(c: char) {
    c == ' ' || c == '\t'
  }

  function LineEnd(s: string): (i: nat)
    ensures i <= |s| && (i < |s| ==> s[i] == '\n') && '\n' !in s[..i]
  {
    if s == "" || s[0] == '\n' then 0
    else
      var i := 1 + LineEnd(s[1..]);
      assert s[..i] == [s[0]] + s[1..][..i - 1];
      i
  }

  function Lines(s: string): seq<string>
    decreases |s|
  {
    var i := LineEnd(s);
    if i == |s| then [s] else [s[..i]] + Lines(s[i + 1..])
  }

  function SplitLines(s: string): seq<string> {
    if s == "" then [] else Lines(s)
  }

  function KeyEnd(s: string): (i: nat)
    ensures i <= |s| && (i < |s| ==> IsSeparator(s[i])) && forall k :: 0 <= k < i ==> !IsSeparator(s[k])
  {
    if s == "" || IsSeparator(s[0]) then 0 else 1 + KeyEnd(s[1..])
  }

  /** A line counts when it starts with a letter and has a separator; the value is the rest. */
  function ParseLine(line: string): Option<Field> {
    if line == "" || !IsAlpha(line[0]) then None
    else
      var i := KeyEnd(line);
      if i == |line| then None else Some(Field(line[..i], line[i + 1..]))
  }

  function FieldsIn(lines: seq<string>): seq<Field> {
    if lines == [] then []
    else
      (var f := ParseLine(lines[0]); if f.Some? then [f.value] else []) + FieldsIn(lines[1..])
  }

  /** The table, and the initrds beyond the first one. */
  datatype Config = Config(options: map<string, string>, overlays: seq<string>)

  function Take(c: Config, f: Field): Config {
    if f.key == "initrd" && "initrd" in c.options then c.(overlays := c.overlays + [f.value])
    else c.(options := c.options[f.key := f.value])
  }

  function TakeAll(c: Config, fs: seq<Field>): Config
    decreases |fs|
  {
    if fs == [] then c else TakeAll(Take(c, fs[0]), fs[1..])
  }

  /** What a parser that already holds `options` makes of a text. */
  function Parsed(options: map<string, string>, text: string): Config {
    TakeAll(Config(options, []), FieldsIn(SplitLines(text)))
  }

  // --- fields to text -------------------------------------------------------------------

  /** The order in which the writer puts the keys it knows. */
  function FieldOrder(): seq<string> {
    ["title", "version", "options", "devicetree", "linux", "initrd"]
  }

  function StandardKeys(): seq<string> {
    ["title", "version", "options", "linux", "initrd", "devicetree"]
  }

  function Known(m: map<string, string>, names: seq<string>): seq<Field> {
    if names == [] then []
    else if names[0] in m then [Field(names[0], m[names[0]])] + Known(m, names[1..])
    else Known(m, names[1..])
  }

  function Initrds(overlays: seq<string>): seq<Field> {
    if overlays == [] then [] else [Field("initrd", overlays[0])] + Initrds(overlays[1..])
  }

  /** The fields a reader of the table would not call standard, in the table's order. */
  function Extra(m: map<string, string>, order: seq<string>): seq<Field>
    requires forall k :: k in order ==> k in m
  {
    if order == [] then []
    else if order[0] in StandardKeys() then Extra(m, order[1..])
    else [Field(order[0], m[order[0]])] + Extra(m, order[1..])
  }

  function Line(f: Field): string {
    f.key + " " + f.value + "\n"
  }

  function Render(fs: seq<Field>): string {
    if fs == [] then "" else Line(fs[0]) + Render(fs[1..])
  }

  /** The keys of a table in some order: what iterating over a hash table gives. */
  ghost predicate Enumerates(order: seq<string>, m: map<string, string>) {
    && (forall i, j :: 0 <= i < j < |order| ==> order[i] != order[j])
    && (forall k :: k in order <==> k in m)
  }

  function Written(c: Config, order: seq<string>): seq<Field>
    requires Enumerates(order, c.options)
  {
    Known(c.options, FieldOrder()) + Initrds(c.overlays) + Extra(c.options, order)
  }

  // --- parsing what was written ---------------------------------------------------------

  predicate GoodKey(k: string) {
    k != "" && IsAlpha(k[0]) && '\n' !in k && forall i :: 0 <= i < |k| ==> !IsSeparator(k[i])
  }

  predicate GoodField(f: Field) {
    GoodKey(f.key) && '\n' !in f.value
  }

  lemma KeyEndAt(s: string, i: nat)
    requires i < |s| && IsSeparator(s[i]) && forall k :: 0 <= k < i ==> !IsSeparator(s[k])
    ensures KeyEnd(s) == i
  {
  }

  lemma LineBack(f: Field)
    requires GoodField(f)
    ensures ParseLine(f.key + " " + f.value) == Some(f)
  {
    var line := f.key + " " + f.value;
    KeyEndAt(line, |f.key|);
    assert line[..|f.key|] == f.key && line[|f.key| + 1..] == f.value;
  }

  lemma LineEndAt(s: string, i: nat)
    requires i < |s| && s[i] == '\n' && forall k :: 0 <= k < i ==> s[k] != '\n'
    ensures LineEnd(s) == i
  {
  }

  lemma LinesStep(line: string, rest: string)
    requires '\n' !in line
    ensures Lines(line + "\n" + rest) == [line] + Lines(rest)
  {
    var s := line + "\n" + rest;
    LineEndAt(s, |line|);
    assert s[..|line|] == line && s[|line| + 1..] == rest;
  }

  /** Every written field is read back, in order. */
  lemma {:induction false} RenderBack(fs: seq<Field>)
    requires forall f :: f in fs ==> GoodField(f)
    ensures FieldsIn(SplitLines(Render(fs))) == fs && FieldsIn(Lines(Render(fs))) == fs
  {
    if fs == [] {
      assert LineEnd("") == 0;
      assert Lines("") == [""];
    } else {
      var f := fs[0];
      RenderBack(fs[1..]);
      LineBack(f);
      assert Render(fs) == (f.key + " " + f.value) + "\n" + Render(fs[1..]);
      LinesStep(f.key + " " + f.value, Render(fs[1..]));
      var lines := Lines(Render(fs));
      assert lines[1..] == Lines(Render(fs[1..]));
      assert fs == [f] + fs[1..];
    }
  }

  /** A line is a field exactly if it is a key, a blank or tab, and a value. */
  lemma ParseLineIff(line: string, k: string, v: string)
    ensures ParseLine(line) == Some(Field(k, v)) <==>
            && k != "" && ('a' <= k[0] <= 'z' || 'A' <= k[0] <= 'Z') && ' ' !in k && '\t' !in k
            && (line == k + " " + v || line == k + "\t" + v)
  {
    hide KeyEnd;
    var i := KeyEnd(line);
    if i < |line| {
      assert line == line[..i] + [line[i]] + line[i + 1..];
      assert forall j :: 0 <= j < i ==> line[..i][j] == line[j];
      assert [line[i]] == " " || [line[i]] == "\t";
    }
    if k != "" && ' ' !in k && '\t' !in k && (line == k + " " + v || line == k + "\t" + v) {
      KeyEndAt(line, |k|);
      assert line[..|k|] == k && line[|k| + 1..] == v && line[0] == k[0];
    }
  }

  /** The lines with their newlines between them. */
  function JoinLines(lines: seq<string>): string {
    if lines == [] then "" else if |lines| == 1 then lines[0] else lines[0] + "\n" + JoinLines(lines[1..])
  }

  /** Splitting into lines loses nothing, and no line has a newline. */
  lemma {:induction false} LinesJoin(s: string)
    ensures Lines(s) != [] && JoinLines(Lines(s)) == s && forall l :: l in Lines(s) ==> '\n' !in l
    decreases |s|
  {
    LinesOneLine(s);
    var i := LineEnd(s);
    if i < |s| {
      LinesJoin(s[i + 1..]);
      assert Lines(s)[1..] == Lines(s[i + 1..]);
      assert s == s[..i] + "\n" + s[i + 1..];
    }
  }

  // --- what the fields of a written table rebuild ---------------------------------------

  predicate PartOf(c: Config, m: map<string, string>) {
    forall k :: k in c.options ==> k in m && c.options[k] == m[k]
  }

  lemma {:induction false} TakeAllAppend(c: Config, fs: seq<Field>, gs: seq<Field>)
    ensures TakeAll(c, fs + gs) == TakeAll(TakeAll(c, fs), gs)
    decreases |fs|
  {
    if fs == [] {
      assert fs + gs == gs;
    } else {
      assert (fs + gs)[1..] == fs[1..] + gs;
      TakeAllAppend(Take(c, fs[0]), fs[1..], gs);
    }
  }

  /** Fields of a table with keys not seen before add just those keys. */
  lemma {:induction false} TakeFresh(c: Config, m: map<string, string>, fs: seq<Field>)
    requires PartOf(c, m)
    requires forall f :: f in fs ==> f.key in m && m[f.key] == f.value && f.key !in c.options
    requires DistinctKeys(fs)
    ensures var r := TakeAll(c, fs);
            && PartOf(r, m) && r.overlays == c.overlays
            && forall k :: k in r.options <==> k in c.options || exists f :: f in fs && f.key == k
    decreases |fs|
  {
    if fs != [] {
      var d := Take(c, fs[0]);
      TakeFresh(d, m, fs[1..]);
      var r := TakeAll(d, fs[1..]);
      assert fs == [fs[0]] + fs[1..];
      forall k
        ensures k in r.options <==> k in c.options || exists f :: f in fs && f.key == k
      {
        if k == fs[0].key {
          assert fs[0] in fs && k in d.options;
        }
      }
    }
  }

  lemma {:induction false} TakeInitrds(c: Config, overlays: seq<string>)
    requires overlays != [] ==> "initrd" in c.options
    ensures TakeAll(c, Initrds(overlays)) == c.(overlays := c.overlays + overlays)
    decreases |overlays|
  {
    if overlays != [] {
      var fs := Initrds(overlays);
      assert fs[1..] == Initrds(overlays[1..]);
      TakeInitrds(Take(c, fs[0]), overlays[1..]);
      assert c.overlays + overlays == (c.overlays + [overlays[0]]) + overlays[1..];
    }
  }

  predicate DistinctKeys(fs: seq<Field>) {
    forall i, j :: 0 <= i < j < |fs| ==> fs[i].key != fs[j].key
  }

  lemma DistinctTail(f: Field, fs: seq<Field>)
    requires DistinctKeys(fs) && forall g :: g in fs ==> g.key != f.key
    ensures DistinctKeys([f] + fs)
  {
    assert forall i :: 0 <= i < |fs| ==> fs[i] in fs;
  }

  lemma {:induction false} KnownFields(m: map<string, string>, names: seq<string>)
    requires forall i, j :: 0 <= i < j < |names| ==> names[i] != names[j]
    ensures forall f :: f in Known(m, names) <==> f.key in names && f.key in m && m[f.key] == f.value
    ensures DistinctKeys(Known(m, names))
  {
    if names != [] {
      KnownFields(m, names[1..]);
      var tail := Known(m, names[1..]);
      assert forall f :: f in tail ==> f.key in names[1..];
      assert names == [names[0]] + names[1..];
      assert names[0] !in names[1..];
      if names[0] in m {
        DistinctTail(Field(names[0], m[names[0]]), tail);
      }
    }
  }

  lemma {:induction false} ExtraFields(m: map<string, string>, order: seq<string>)
    requires forall i, j :: 0 <= i < j < |order| ==> order[i] != order[j]
    requires forall k :: k in order ==> k in m
    ensures forall f :: f in Extra(m, order) <==>
                          f.key in order && f.key !in StandardKeys() && m[f.key] == f.value
    ensures DistinctKeys(Extra(m, order))
  {
    hide StandardKeys;
    if order != [] {
      ExtraFields(m, order[1..]);
      var tail := Extra(m, order[1..]);
      assert forall f :: f in tail ==> f.key in order[1..];
      assert order == [order[0]] + order[1..];
      assert order[0] !in order[1..];
      if order[0] !in StandardKeys() {
        DistinctTail(Field(order[0], m[order[0]]), tail);
      }
    }
  }

  lemma InitrdFields(overlays: seq<string>)
    ensures forall f :: f in Initrds(overlays) ==> f.key == "initrd" && f.value in overlays
  {
  }

  lemma FieldOrderIsStandard()
    ensures forall k :: k in FieldOrder() <==> k in StandardKeys()
    ensures "initrd" in FieldOrder()
    ensures forall i, j :: 0 <= i < j < |FieldOrder()| ==> FieldOrder()[i] != FieldOrder()[j]
  {
    var fs := FieldOrder();
    assert fs[0][0] == 't' && fs[1][0] == 'v' && fs[2][0] == 'o' && fs[3][0] == 'd';
    assert fs[4][0] == 'l' && fs[5][0] == 'i' && fs[5] == "initrd";
  }

  /** A configuration that the format can hold. */
  predicate WellFormed(c: Config) {
    && (forall k :: k in c.options ==> GoodKey(k) && '\n' !in c.options[k])
    && (forall v :: v in c.overlays ==> '\n' !in v)
    && (c.overlays != [] ==> "initrd" in c.options)
  }

  lemma TakeKnown(m: map<string, string>)
    ensures var c := TakeAll(Config(map[], []), Known(m, FieldOrder()));
            && PartOf(c, m) && c.overlays == []
            && forall k :: k in c.options <==> k in FieldOrder() && k in m
  {
    hide FieldOrder, StandardKeys, Known, Take, TakeAll;
    var known := Known(m, FieldOrder());
    FieldOrderIsStandard();
    KnownFields(m, FieldOrder());
    TakeFresh(Config(map[], []), m, known);
    forall k | k in FieldOrder() && k in m
      ensures exists f :: f in known && f.key == k
    {
      assert Field(k, m[k]) in known;
    }
  }

  lemma TakeWritten(c: Config, order: seq<string>)
    requires Enumerates(order, c.options) && (c.overlays != [] ==> "initrd" in c.options)
    ensures TakeAll(Config(map[], []), Written(c, order)) == c
  {
    hide FieldOrder, StandardKeys, Known, Extra, Initrds, Take, TakeAll;
    var m := c.options;
    var known, extra := Known(m, FieldOrder()), Extra(m, order);
    FieldOrderIsStandard();
    ExtraFields(m, order);
    var none := Config(map[], []);
    var c1 := TakeAll(none, known);
    TakeKnown(m);
    TakeInitrds(c1, c.overlays);
    var c2 := c1.(overlays := c1.overlays + c.overlays);
    TakeFresh(c2, m, extra);
    var c3 := TakeAll(c2, extra);
    forall k | k in m
      ensures k in c3.options
    {
      if k !in c1.options {
        assert Field(k, m[k]) in extra;
      }
    }
    assert c3.options == m;
    TakeAllAppend(none, known, Initrds(c.overlays));
    TakeAllAppend(none, known + Initrds(c.overlays), extra);
  }

  /** Parsing a written configuration recovers it, whatever order the hash table has. */
  lemma WriteThenParse(c: Config, order: seq<string>)
    requires Enumerates(order, c.options) && (c.overlays != [] ==> "initrd" in c.options)
    ensures Parsed(map[], Render(Written(c, order))) == c <==> WellFormed(c)
  {
    hide FieldOrder, StandardKeys, Take, TakeAll, FieldsIn, SplitLines;
    if WellFormed(c) {
      WrittenGood(c, order);
      RenderBack(Written(c, order));
      TakeWritten(c, order);
    } else {
      ParsedWellFormed(Render(Written(c, order)));
    }
  }

  lemma WrittenGood(c: Config, order: seq<string>)
    requires Enumerates(order, c.options) && WellFormed(c)
    ensures forall f :: f in Written(c, order) ==> GoodField(f)
  {
    hide FieldOrder, StandardKeys, Known, Extra, Initrds;
    FieldOrderIsStandard();
    KnownFields(c.options, FieldOrder());
    ExtraFields(c.options, order);
    InitrdFields(c.overlays);
  }

  /** Whatever the text, the parser ends with a configuration that the format can hold. */
  lemma ParsedWellFormed(text: string)
    ensures WellFormed(Parsed(map[], text))
  {
    LinesOneLine(text);
    FieldsGood(SplitLines(text));
    TakeAllGood(Config(map[], []), FieldsIn(SplitLines(text)));
  }

  lemma {:induction false} LinesOneLine(s: string)
    ensures forall l :: l in Lines(s) ==> '\n' !in l
    decreases |s|
  {
    var i := LineEnd(s);
    if i < |s| {
      LinesOneLine(s[i + 1..]);
    } else {
      assert s[..i] == s;
    }
  }

  lemma {:induction false} FieldsGood(lines: seq<string>)
    requires forall l :: l in lines ==> '\n' !in l
    ensures forall f :: f in FieldsIn(lines) ==> GoodField(f)
  {
    if lines != [] {
      FieldsGood(lines[1..]);
      assert lines[0] in lines;
    }
  }

  lemma {:induction false} TakeAllGood(c: Config, fs: seq<Field>)
    requires WellFormed(c) && forall f :: f in fs ==> GoodField(f)
    ensures WellFormed(TakeAll(c, fs))
    decreases |fs|
  {
    if fs != [] {
      assert fs[0] in fs;
      TakeAllGood(Take(c, fs[0]), fs[1..]);
    }
  }

  /** Overlays are only found after a first initrd, and no key is ever dropped. */
  lemma {:induction false} TakeAllPrimary(c: Config, fs: seq<Field>)
    requires c.overlays != [] ==> "initrd" in c.options
    ensures TakeAll(c, fs).overlays != [] ==> "initrd" in TakeAll(c, fs).options
    ensures c.options.Keys <= TakeAll(c, fs).options.Keys
    decreases |fs|
  {
    if fs != [] {
      TakeAllPrimary(Take(c, fs[0]), fs[1..]);
    }
  }

  /** Of several fields with a key the last one counts. */
  lemma {:induction false} LastFieldCounts(c: Config, fs: seq<Field>, i: nat)
    requires i < |fs| && fs[i].key != "initrd" && forall j :: i < j < |fs| ==> fs[j].key != fs[i].key
    ensures fs[i].key in TakeAll(c, fs).options && TakeAll(c, fs).options[fs[i].key] == fs[i].value
    decreases |fs|
  {
    if i > 0 {
      LastFieldCounts(Take(c, fs[0]), fs[1..], i - 1);
    } else {
      OtherFieldsKeep(Take(c, fs[0]), fs[1..], fs[0].key);
    }
  }

  lemma {:induction false} OtherFieldsKeep(c: Config, fs: seq<Field>, k: string)
    requires forall j :: 0 <= j < |fs| ==> fs[j].key != k
    ensures k in TakeAll(c, fs).options <==> k in c.options
    ensures k in c.options ==> TakeAll(c, fs).options[k] == c.options[k]
    decreases |fs|
  {
    if fs != [] { OtherFieldsKeep(Take(c, fs[0]), fs[1..], k); }
  }

  /** The initrds among the fields, in order. */
  function InitrdsIn(fs: seq<Field>): seq<string> {
    if fs == [] then []
    else if fs[0].key == "initrd" then [fs[0].value] + InitrdsIn(fs[1..]) else InitrdsIn(fs[1..])
  }

  /** The first initrd is the primary one, unless there was one already; all others are overlays. */
  lemma {:induction false} FirstInitrdCounts(c: Config, fs: seq<Field>)
    ensures var d, vs := TakeAll(c, fs), InitrdsIn(fs);
            if "initrd" in c.options
            then "initrd" in d.options && d.options["initrd"] == c.options["initrd"] && d.overlays == c.overlays + vs
            else if vs == [] then "initrd" !in d.options && d.overlays == c.overlays
            else "initrd" in d.options && d.options["initrd"] == vs[0] && d.overlays == c.overlays + vs[1..]
    decreases |fs|
  {
    if fs != [] { FirstInitrdCounts(Take(c, fs[0]), fs[1..]); }
  }

  /** An entry with all six keys is written in this order. */
  lemma WrittenInOrder(m: map<string, string>)
    requires forall k :: k in FieldOrder() ==> k in m
    ensures var fs := Known(m, FieldOrder());
            && |fs| == 6 && fs[0].key == "title" && fs[1].key == "version" && fs[2].key == "options"
            && fs[3].key == "devicetree" && fs[4].key == "linux" && fs[5].key == "initrd"
            && forall i :: 0 <= i < 6 ==> fs[i].value == m[fs[i].key]
  {
    KnownAll(m, FieldOrder());
  }

  lemma {:induction false} KnownAll(m: map<string, string>, names: seq<string>)
    requires forall k :: k in names ==> k in m
    ensures |Known(m, names)| == |names|
    ensures forall i :: 0 <= i < |names| ==> names[i] in m && Known(m, names)[i] == Field(names[i], m[names[i]])
  {
    if names != [] {
      assert names[0] in names;
      KnownAll(m, names[1..]);
    }
  }

  /** One field to a line, with a blank between key and value. */
  lemma RenderedLines(f: Field, g: Field)
    ensures Render([f, g]) == f.key + " " + f.value + "\n" + g.key + " " + g.value + "\n"
  {
    assert [f, g][1..] == [g] && [g][1..] == [];
    assert Render([g]) == Line(g) + "" == Line(g);
  }

  // --- extra keys over a staged deployment ----------------------------------------------

  /** Setting each exported field on a fresh table. */
  function Restored(base: map<string, string>, fs: seq<Field>): map<string, string>
    decreases |fs|
  {
    if fs == [] then base else Restored(base[fs[0].key := fs[0].value], fs[1..])
  }

  lemma {:induction false} RestoredLookup(base: map<string, string>, m: map<string, string>, fs: seq<Field>)
    requires forall f :: f in fs ==> f.key in m && m[f.key] == f.value
    ensures var r := Restored(base, fs);
            forall k :: && (k in r <==> k in base || exists f :: f in fs && f.key == k)
                        && (k in r ==> r[k] == if exists f :: f in fs && f.key == k then m[k] else base[k])
    decreases |fs|
  {
    if fs != [] {
      RestoredLookup(base[fs[0].key := fs[0].value], m, fs[1..]);
      assert fs == [fs[0]] + fs[1..] && fs[0] in fs;
    }
  }

  /** The extra keys survive, and the keys rebuilt from the deployment keep their new values. */
  lemma ExtraKeysSurvive(base: map<string, string>, m: map<string, string>, order: seq<string>)
    requires Enumerates(order, m) && forall k :: k in base ==> k in StandardKeys()
    ensures Restored(base, Extra(m, order)) ==
            base + (map k | k in m && k !in StandardKeys() :: m[k])
  {
    hide StandardKeys, Extra, Restored;
    var fs := Extra(m, order);
    var r := Restored(base, fs);
    RestoredLookup(base, m, fs) by { ExtraKeyed(m, order); }
    ExtraKeyed(m, order);
    assert forall k :: k in r <==> k in base || (k in m && k !in StandardKeys());
  }

  lemma ExtraKeyed(m: map<string, string>, order: seq<string>)
    requires Enumerates(order, m)
    ensures forall f :: f in Extra(m, order) ==> f.key in m && m[f.key] == f.value
    ensures forall k :: (exists f :: f in Extra(m, order) && f.key == k) <==> k in m && k !in StandardKeys()
  {
    hide StandardKeys, Extra;
    ExtraFields(m, order);
    forall k | k in m && k !in StandardKeys()
      ensures exists f :: f in Extra(m, order) && f.key == k
    {
      assert Field(k, m[k]) in Extra(m, order);
    }
  }

  // --- the parser object ----------------------------------------------------------------

  class Parser {
    var filename: Option<string>
    var options: map<string, string>
    var overlays: Option<seq<string>>

    constructor ()
      ensures Valid() && filename == None && options == map[] && overlays == None
    {
      filename, options, overlays := None, map[], None;
    }

    ghost function Contents(): Config
      reads this
    {
      Config(options, if overlays.Some? then overlays.value else [])
    }

    /** What the writer asserts: overlays come with a primary initrd. */
    ghost predicate Valid()
      reads this
    {
      Contents().overlays != [] ==> "initrd" in options
    }

    method ParseAt(contents: string, basename: string)
      requires Valid() && filename == None
      modifies this
      ensures Valid()
      ensures var p := Parsed(old(options), contents);
              && options == p.options
              && overlays == if p.overlays == [] then old(overlays) else Some(p.overlays)
      ensures filename == Some(basename)
    {
      var found := [];
      var lines := SplitLines(contents);
      var i := 0;
      while i < |lines|
        invariant 0 <= i <= |lines|
        invariant overlays == old(overlays)
        invariant Parsed(old(options), contents) ==
                  TakeAll(Config(options, found), FieldsIn(lines[i..]))
      {
        ghost var c := Config(options, found);
        StepFields(c, lines[i..]);
        assert lines[i..][1..] == lines[i + 1..];
        var f := ParseLine(lines[i]);
        if f.Some? {
          if f.value.key == "initrd" && "initrd" in options {
            found := found + [f.value.value];
          } else {
            options := options[f.value.key := f.value.value];
          }
        }
        i := i + 1;
      }
      if found != [] {
        overlays := Some(found);
      }
      filename := Some(basename);
      TakeAllPrimary(Config(old(options), []), FieldsIn(lines));
    }

    method Set(key: string, value: string)
      requires Valid()
      modifies this`options
      ensures Valid() && options == old(options)[key := value]
    {
      options := options[key := value];
    }

    method SetOverlayInitrds(initrds: Option<seq<string>>)
      requires "initrd" in options
      modifies this`overlays
      ensures Valid() && overlays == initrds
    {
      overlays := initrds;
    }

    /** The text that goes to the file; `order` is the order the table is walked in. */
    method WriteAt(order: seq<string>) returns (buf: string)
      requires Valid() && Enumerates(order, options)
      ensures buf == Render(Written(Contents(), order))
    {
      hide FieldOrder, StandardKeys, Line;
      var keysWritten: set<string> := {};
      buf := "";
      ghost var known, extra := Known(options, FieldOrder()), Extra(options, order);
      ghost var initrds := Initrds(Contents().overlays);
      var fields := FieldOrder();
      var i := 0;
      while i < |fields|
        invariant 0 <= i <= |fields|
        invariant Render(known) == buf + Render(Known(options, fields[i..]))
        invariant forall k :: k in keysWritten <==> k in fields[..i] && k in options
      {
        assert fields[i..][1..] == fields[i + 1..];
        assert fields[..i + 1] == fields[..i] + [fields[i]];
        if fields[i] in options {
          RenderFirst(Field(fields[i], options[fields[i]]), Known(options, fields[i + 1..]));
          buf := buf + Line(Field(fields[i], options[fields[i]]));
          keysWritten := keysWritten + {fields[i]};
        }
        i := i + 1;
      }
      assert fields[..i] == fields && buf == Render(known);
      FieldOrderIsStandard();
      if overlays.Some? && |overlays.value| > 0 {
        assert "initrd" in keysWritten;
        var more := WriteInitrds(overlays.value);
        buf := buf + more;
      } else {
        assert initrds == [] && buf + "" == buf;
      }
      RenderAppend(known, initrds);
      assert buf == Render(known + initrds);
      var rest := WriteUnknown(order, keysWritten);
      buf := buf + rest;
      RenderAppend(known + initrds, extra);
    }

    method WriteInitrds(values: seq<string>) returns (buf: string)
      ensures buf == Render(Initrds(values))
    {
      buf := "";
      var i := 0;
      while i < |values|
        invariant 0 <= i <= |values|
        invariant Render(Initrds(values)) == buf + Render(Initrds(values[i..]))
      {
        assert values[i..][1..] == values[i + 1..];
        RenderFirst(Field("initrd", values[i]), Initrds(values[i + 1..]));
        buf := buf + Line(Field("initrd", values[i]));
        i := i + 1;
      }
    }

    method WriteUnknown(order: seq<string>, keysWritten: set<string>) returns (buf: string)
      requires forall k :: k in order ==> k in options
      requires forall k :: k in options ==> (k in keysWritten <==> k in StandardKeys())
      ensures buf == Render(Extra(options, order))
    {
      hide StandardKeys, Extra, Render, Line;
      buf := "";
      var i := 0;
      assert order[0..] == order;
      while i < |order|
        invariant 0 <= i <= |order|
        invariant Render(Extra(options, order)) == buf + Render(Extra(options, order[i..]))
      {
        ExtraStep(options, order, i);
        if order[i] !in keysWritten {
          var line := Line(Field(order[i], options[order[i]]));
          ghost var rest := Extra(options, order[i + 1..]);
          RenderFirst(Field(order[i], options[order[i]]), rest);
          assert buf + (line + Render(rest)) == buf + line + Render(rest);
          buf := buf + line;
        }
        i := i + 1;
      }
      NothingExtra(options, order[i..]);
    }

    /** The exported keys are those the writer's last loop writes, in the same order. */
    method GetExtraKeys(order: seq<string>) returns (extra: Option<seq<Field>>)
      requires Enumerates(order, options)
      ensures extra.None? <==> Extra(options, order) == []
      ensures extra.Some? ==> extra.value == Extra(options, order)
    {
      hide StandardKeys, Extra;
      var fs := [];
      var i := 0;
      assert order[0..] == order;
      while i < |order|
        invariant 0 <= i <= |order|
        invariant Extra(options, order) == fs + Extra(options, order[i..])
      {
        ExtraStep(options, order, i);
        var standard := IsStandardKey(order[i]);
        if !standard {
          fs := fs + [Field(order[i], options[order[i]])];
        }
        i := i + 1;
      }
      NothingExtra(options, order[i..]);
      return if fs == [] then None else Some(fs);
    }
  }

  lemma NothingExtra(m: map<string, string>, order: seq<string>)
    requires order == []
    ensures Extra(m, order) == [] && Render(Extra(m, order)) == ""
  {
  }

  method IsStandardKey(key: string) returns (standard: bool)
    ensures standard <==> key in StandardKeys()
  {
    hide StandardKeys;
    var keys := StandardKeys();
    var i := 0;
    while i < |keys|
      invariant 0 <= i <= |keys| && key !in keys[..i]
    {
      if key == keys[i] {
        return true;
      }
      i := i + 1;
    }
    assert keys[..i] == keys;
    return false;
  }

  lemma StepFields(c: Config, lines: seq<string>)
    requires lines != []
    ensures TakeAll(c, FieldsIn(lines)) ==
            TakeAll(if ParseLine(lines[0]).Some? then Take(c, ParseLine(lines[0]).value) else c,
                    FieldsIn(lines[1..]))
  {
    hide ParseLine, Take;
    var f := ParseLine(lines[0]);
    assert f.Some? ==> FieldsIn(lines)[1..] == FieldsIn(lines[1..]);
    assert f.None? ==> FieldsIn(lines) == FieldsIn(lines[1..]);
  }

  lemma RenderFirst(f: Field, fs: seq<Field>)
    ensures Render([f] + fs) == Line(f) + Render(fs)
  {
    assert ([f] + fs)[1..] == fs;
  }

  lemma ExtraStep(m: map<string, string>, order: seq<string>, i: nat)
    requires i < |order| && forall k :: k in order ==> k in m
    ensures order[i] in order
    ensures Extra(m, order[i..]) ==
            if order[i] in StandardKeys() then Extra(m, order[i + 1..])
            else [Field(order[i], m[order[i]])] + Extra(m, order[i + 1..])
  {
    hide StandardKeys;
    assert order[i..][1..] == order[i + 1..];
  }

  lemma {:induction false} RenderAppend(fs: seq<Field>, gs: seq<Field>)
    ensures Render(fs + gs) == Render(fs) + Render(gs)
  {
    if fs == [] {
      assert fs + gs == gs;
    } else {
      assert (fs + gs)[1..] == fs[1..] + gs;
      RenderAppend(fs[1..], gs);
    }
  }

  /** Writing a parser's entry and parsing the file with a new one gives the same entry. */
  method SaveAndLoad(p: Parser, order: seq<string>, basename: string) returns (q: Parser)
    requires Enumerates(order, p.options) && WellFormed(p.Contents())
    ensures fresh(q) && q.options == p.options && q.Contents() == p.Contents()
  {
    var text := p.WriteAt(order);
    WriteThenParse(p.Contents(), order);
    q := new Parser();
    q.ParseAt(text, basename);
  }
}
