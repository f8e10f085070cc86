/** Paths and names of static deltas. */
module DeltaPaths {
  import opened Options
  import opened ChecksumText

  /** A delta leads from one commit, or from nothing, to another. */
  datatype Delta = Delta(from: Option<string>, to: string) {
    predicate Ok() {
      Valid(to) && (from.Some? ==> Valid(from.value))
    }
  }

  datatype Target = Whole | Superblock | DetachedMeta | Part(index: nat)

  function PathText(checksum: string): (s: string)
    requires Valid(checksum)
    ensures IsB64(s)
  {
    B64(Unhex(checksum))
  }

  lemma PathTextBack(checksum: string)
    requires Valid(checksum)
    ensures Hex(Unb64(PathText(checksum))) == checksum
  {
    Unb64B64(Unhex(checksum));
    HexUnhex(checksum);
  }

  /** The first two digits name a directory; the slash never falls between the checksums. */
  function Base(d: Delta): (s: string)
    requires d.Ok()
    ensures |s| == if d.from.Some? then 88 else 44
  {
    var to := PathText(d.to);
    match d.from
    case None => to[..2] + "/" + to[2..]
    case Some(f) => PathText(f)[..2] + "/" + PathText(f)[2..] + "-" + to
  }

  /** The round-trip check on the new checksum never fails. */
  method StaticDeltaPathBase(dir: string, d: Delta) returns (path: string)
    requires d.Ok()
    ensures path == dir + Base(d)
  {
    hide Encode, Decode, Hex, Unhex, Value, Digit;
    var csumTo, csumCopy := new byte[DIGEST_LEN](_ => 0), new byte[DIGEST_LEN](_ => 0);
    var toB64 := new char[B64_LEN + 1];
    path := dir;
    assert d.to[..STRING_LEN] == d.to;
    InplaceToBytes(d.to, csumTo);
    assert csumTo[..] == csumTo[..DIGEST_LEN] == Unhex(d.to);
    B64InplaceFromBytes(csumTo[..], toB64);
    var to := toB64[..B64_LEN];
    assert to == PathText(d.to) && to[..B64_LEN] == to;
    B64InplaceToBytes(to, csumCopy);
    Unb64B64(csumTo[..]);
    assert csumCopy[..] == csumCopy[..DIGEST_LEN];
    assert csumTo[..] == csumCopy[..];
    if d.from.Some? {
      var from := FromText(d.from.value);
      path := path + [from[0]] + [from[1]] + "/" + from[2..] + "-";
      assert from[..2] == [from[0]] + [from[1]];
    }
    assert to[..2] == [to[0]] + [to[1]];
    assert to == to[..2] + to[2..];
    path := path + [to[0]] + [to[1]];
    if d.from.None? {
      path := path + "/";
    }
    path := path + to[2..];
  }

  method FromText(from: string) returns (b64: string)
    requires Valid(from)
    ensures b64 == PathText(from)
  {
    hide Encode, Decode, Hex, Unhex, Value, Digit;
    var csum := new byte[DIGEST_LEN](_ => 0);
    var buf := new char[B64_LEN + 1];
    assert from[..STRING_LEN] == from;
    InplaceToBytes(from, csum);
    assert csum[..] == csum[..DIGEST_LEN] == Unhex(from);
    B64InplaceFromBytes(csum[..], buf);
    return buf[..B64_LEN];
  }

  /** The checksum the delta starts from comes first, then the one it leads to. */
  lemma BaseIs(from: string, to: string)
    requires Valid(from) && Valid(to)
    ensures var f, t := PathText(from), PathText(to);
            && Base(Delta(Some(from), to)) == f[..2] + "/" + f[2..] + "-" + t
            && Base(Delta(None, to)) == t[..2] + "/" + t[2..]
  {
  }

  // --- from a path back to the delta ----------------------------------------------------

  function FirstDash(s: string): (i: nat)
    ensures i <= |s| && (i < |s| ==> s[i] == '-') && forall k :: 0 <= k < i ==> s[k] != '-'
  {
    if s == "" || s[0] == '-' then 0 else 1 + FirstDash(s[1..])
  }

  lemma DashAt(s: string, i: nat)
    requires i <= |s| && (i < |s| ==> s[i] == '-') && forall k :: 0 <= k < i ==> s[k] != '-'
    ensures FirstDash(s) == i
  {
  }

  /** What the lister needs of the two directory names joined: checksums where it reads them. */
  predicate Listable(s: string) {
    var dash := FirstDash(s);
    |s| >= B64_LEN && IsB64(s[..B64_LEN]) &&
    (dash < |s| ==> |s| >= dash + 1 + B64_LEN && IsB64(s[dash + 1..][..B64_LEN]))
  }

  /** The delta's name as the lister rebuilds it from the directory and subdirectory names. */
  function ListedName(name1: string, name2: string): string
    requires Listable(name1 + name2)
  {
    var s := name1 + name2;
    var dash := FirstDash(s);
    Hex(Unb64(s[..B64_LEN])) +
    if dash < |s| then "-" + Hex(Unb64(s[dash + 1..][..B64_LEN])) else ""
  }

  function Name(d: Delta): string {
    match d.from
    case None => d.to
    case Some(f) => f + "-" + d.to
  }

  /** Listing the directories made for a delta gives the delta's name. */
  lemma ListedBack(d: Delta)
    requires d.Ok()
    ensures var s := Base(d);
            s[2] == '/' && '/' !in s[..2] && '/' !in s[3..] &&
            Listable(s[..2] + s[3..]) && ListedName(s[..2], s[3..]) == Name(d)
  {
    hide B64, Unb64, Hex, Unhex;
    var s, to := Base(d), PathText(d.to);
    PathTextBack(d.to);
    if d.from.Some? {
      var from := PathText(d.from.value);
      PathTextBack(d.from.value);
      assert s[..2] + s[3..] == from + "-" + to;
      DashAt(from + "-" + to, B64_LEN);
      assert (from + "-" + to)[..B64_LEN] == from;
      assert (from + "-" + to)[B64_LEN + 1..][..B64_LEN] == to;
    } else {
      assert s[..2] + s[3..] == to;
      DashAt(to, B64_LEN);
      assert to[..B64_LEN] == to;
    }
  }

  /** Splits at the first dash and checks each part. */
  function ParseDeltaName(name: string): Option<Delta> {
    var dash := FirstDash(name);
    if !Valid(name[..dash]) then None
    else if dash == |name| then Some(Delta(None, name[..dash]))
    else if !Valid(name[dash + 1..]) then None
    else Some(Delta(Some(name[..dash]), name[dash + 1..]))
  }

  /** Parsing accepts the names of deltas and nothing else. */
  lemma ParseIff(name: string, d: Delta)
    ensures ParseDeltaName(name) == Some(d) <==> d.Ok() && name == Name(d)
  {
    var dash := FirstDash(name);
    assert name[..|name|] == name;
    assert dash < |name| ==> name == name[..dash] + "-" + name[dash + 1..];
    if d.Ok() && name == Name(d) {
      DashAt(name, STRING_LEN);
      assert d.from.Some? ==> name[..STRING_LEN] == d.from.value && name[STRING_LEN + 1..] == d.to;
    }
  }

  /** A name with a dash is read as from and to, one without as to. */
  lemma ParseReads(from: string, to: string)
    requires Valid(from) && Valid(to)
    ensures ParseDeltaName(from + "-" + to) == Some(Delta(Some(from), to))
    ensures ParseDeltaName(to) == Some(Delta(None, to))
  {
    ParseIff(from + "-" + to, Delta(Some(from), to));
    ParseIff(to, Delta(None, to));
  }

  // --- the files of a delta -------------------------------------------------------------

  function Decimal(n: nat): (s: string)
    ensures s != "" && forall i :: 0 <= i < |s| ==> '0' <= s[i] <= '9'
  {
    var digit := ['0' + (n % 10) as char];
    if n < 10 then digit else Decimal(n / 10) + digit
  }

  lemma {:induction false} DecimalInjective(m: nat, n: nat)
    requires Decimal(m) == Decimal(n)
    ensures m == n
  {
    var s, t := Decimal(m), Decimal(n);
    assert s[|s| - 1] == t[|t| - 1];
    if m >= 10 && n >= 10 {
      assert s[..|s| - 1] == Decimal(m / 10) && t[..|t| - 1] == Decimal(n / 10);
      DecimalInjective(m / 10, n / 10);
    } else {
      assert (m < 10) == (|s| == 1) && (n < 10) == (|t| == 1);
    }
  }

  function TargetText(t: Target): string {
    match t
    case Whole => ""
    case Superblock => "/superblock"
    case DetachedMeta => "/meta"
    case Part(i) => "/" + Decimal(i)
  }

  lemma TargetInjective(t: Target, u: Target)
    requires TargetText(t) == TargetText(u)
    ensures t == u
  {
    assert t.Part? ==> TargetText(t)[1] == Decimal(t.index)[0];
    assert u.Part? ==> TargetText(u)[1] == Decimal(u.index)[0];
    if t.Part? && u.Part? {
      assert TargetText(t)[1..] == Decimal(t.index) && TargetText(u)[1..] == Decimal(u.index);
      DecimalInjective(t.index, u.index);
    }
  }

  function Path(d: Delta, t: Target): string
    requires d.Ok()
  {
    "deltas/" + Base(d) + TargetText(t)
  }

  /** Where the files of a delta are. */
  lemma PathIs(d: Delta, i: nat)
    requires d.Ok()
    ensures Path(d, Whole) == "deltas/" + Base(d)
    ensures Path(d, Superblock) == "deltas/" + Base(d) + "/superblock"
    ensures Path(d, DetachedMeta) == "deltas/" + Base(d) + "/meta"
    ensures Path(d, Part(i)) == "deltas/" + Base(d) + ("/" + Decimal(i))
  {
    hide Base, Decimal;
    assert "deltas/" + Base(d) + "" == "deltas/" + Base(d);
  }

  /** The number that decimal digits stand for. */
  function Number(s: string): nat
    requires forall i :: 0 <= i < |s| ==> '0' <= s[i] <= '9'
  {
    if s == "" then 0 else 10 * Number(s[..|s| - 1]) + (s[|s| - 1] - '0') as int
  }

  lemma {:induction false} DecimalIs(n: nat)
    ensures Number(Decimal(n)) == n
  {
    var s := Decimal(n);
    if n >= 10 {
      DecimalIs(n / 10);
      assert s[..|s| - 1] == Decimal(n / 10);
    } else {
      assert s[..0] == "";
    }
  }

  /** Different files of different deltas never share a path. */
  lemma PathInjective(d: Delta, t: Target, e: Delta, u: Target)
    requires d.Ok() && e.Ok() && Path(d, t) == Path(e, u)
    ensures d == e && t == u
  {
    hide PathText, TargetText;
    var s := Path(d, t);
    SameKind(d, t, e, u);
    var n := 7 + |Base(d)|;
    assert s[7..n] == Base(d) && s[7..n] == Base(e);
    assert s[n..] == TargetText(t) && s[n..] == TargetText(u);
    TargetInjective(t, u);
    ListedBack(d);
    ListedBack(e);
    ParseIff(Name(d), d);
    ParseIff(Name(d), e);
  }

  /** Where a delta from nothing ends or goes on with a slash, another has a dash. */
  lemma SameKind(d: Delta, t: Target, e: Delta, u: Target)
    requires d.Ok() && e.Ok() && Path(d, t) == Path(e, u)
    ensures d.from.Some? <==> e.from.Some?
  {
    KindAt(d, t);
    KindAt(e, u);
  }

  lemma KindAt(d: Delta, t: Target)
    requires d.Ok()
    ensures d.from.Some? <==> |Path(d, t)| > 51 && Path(d, t)[51] == '-'
  {
    hide PathText;
    assert d.from.Some? ==> Base(d)[44] == '-';
    assert t.Whole? || TargetText(t)[0] == '/';
  }
}
