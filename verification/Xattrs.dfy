/** Extended attributes in canonical order, and the check that they are. */
module Xattrs {
  import opened Options

  type Bytes = seq<byte>

  /** A raw attribute: both parts are byte arrays, and the first should end with a NUL. */
  datatype Xattr = Xattr(raw: Bytes, value: Bytes)

  /** The name as a C string: empty when the NUL is missing. */
  function Name(x: Xattr): Bytes {
    if x.raw == [] || x.raw[|x.raw| - 1] != 0 then [] else UpToNul(x.raw)
  }

  function UpToNul(s: Bytes): Bytes {
    if s == [] || s[0] == 0 then [] else [s[0]] + UpToNul(s[1..])
  }

  // --- strcmp ---------------------------------------------------------------------------

  function Compare(a: Bytes, b: Bytes): int {
    if a == [] || b == [] then |a| - |b|
    else if a[0] != b[0] then a[0] - b[0]
    else Compare(a[1..], b[1..])
  }

  lemma {:induction false} CompareEqual(a: Bytes, b: Bytes)
    ensures Compare(a, b) == 0 <==> a == b
  {
    if a != [] && b != [] && a[0] == b[0] {
      CompareEqual(a[1..], b[1..]);
      assert a == [a[0]] + a[1..] && b == [b[0]] + b[1..];
    }
  }

  lemma {:induction false} CompareSwap(a: Bytes, b: Bytes)
    ensures Compare(a, b) < 0 <==> Compare(b, a) > 0
  {
    if a != [] && b != [] && a[0] == b[0] {
      CompareSwap(a[1..], b[1..]);
    }
  }

  lemma {:induction false} CompareTransitive(a: Bytes, b: Bytes, c: Bytes)
    requires Compare(a, b) <= 0 && Compare(b, c) <= 0
    ensures Compare(a, c) <= 0
    ensures Compare(a, b) < 0 || Compare(b, c) < 0 ==> Compare(a, c) < 0
  {
    if a != [] && b != [] && c != [] && a[0] == b[0] == c[0] {
      CompareTransitive(a[1..], b[1..], c[1..]);
    }
  }

  /** A shorter name comes before every name that goes on with it. */
  lemma {:induction false} PrefixFirst(a: Bytes, b: Bytes)
    requires a <= b && a != b
    ensures Compare(a, b) < 0
  {
    if a != [] { PrefixFirst(a[1..], b[1..]); }
  }

  /** Otherwise the first byte that differs decides, the smaller one coming first. */
  lemma {:induction false} FirstDifference(a: Bytes, b: Bytes, i: nat)
    requires i < |a| && i < |b| && a[..i] == b[..i] && a[i] != b[i]
    ensures Compare(a, b) < 0 <==> a[i] < b[i]
  {
    if i > 0 {
      assert a[0] == a[..i][0] && b[0] == b[..i][0];
      assert a[1..][..i - 1] == a[..i][1..] && b[1..][..i - 1] == b[..i][1..];
      FirstDifference(a[1..], b[1..], i - 1);
    }
  }

  /** A name ends before the first NUL of the raw bytes; without one at their end it is empty. */
  lemma NameIs(x: Xattr)
    ensures Name(x) <= x.raw && 0 !in Name(x)
    ensures if x.raw != [] && x.raw[|x.raw| - 1] == 0 then |Name(x)| < |x.raw| && x.raw[|Name(x)|] == 0
            else Name(x) == []
  {
    UpToNulIs(x.raw);
  }

  lemma {:induction false} UpToNulIs(s: Bytes)
    ensures UpToNul(s) <= s && 0 !in UpToNul(s)
    ensures 0 in s ==> |UpToNul(s)| < |s| && s[|UpToNul(s)|] == 0
  {
    if s != [] && s[0] != 0 { UpToNulIs(s[1..]); }
  }

  // --- _ostree_canonicalize_xattrs ------------------------------------------------------

  predicate Sorted(xs: seq<Xattr>) {
    forall i, j :: 0 <= i < j < |xs| ==> Compare(Name(xs[i]), Name(xs[j])) <= 0
  }

  /** What sorting by name may give. Equal names are in no promised order. */
  predicate Canonical(xs: seq<Xattr>, ys: seq<Xattr>) {
    multiset(xs) == multiset(ys) && Sorted(ys)
  }

  /** One sort by name: a later element goes behind the equal ones. */
  function Insert(xs: seq<Xattr>, x: Xattr): seq<Xattr> {
    if xs == [] || Compare(Name(xs[|xs| - 1]), Name(x)) <= 0 then xs + [x]
    else Insert(xs[..|xs| - 1], x) + [xs[|xs| - 1]]
  }

  lemma {:induction false} InsertKeeps(xs: seq<Xattr>, x: Xattr)
    requires Sorted(xs)
    ensures Canonical(xs + [x], Insert(xs, x))
    decreases |xs|, 1
  {
    hide Compare, Name;
    if xs == [] {
    } else if Compare(Name(xs[|xs| - 1]), Name(x)) <= 0 {
      forall i | 0 <= i < |xs|
        ensures Compare(Name(xs[i]), Name(x)) <= 0
      {
        if i < |xs| - 1 {
          CompareTransitive(Name(xs[i]), Name(xs[|xs| - 1]), Name(x));
        }
      }
    } else {
      InsertMiddle(xs, x);
    }
  }

  lemma {:induction false} InsertMiddle(xs: seq<Xattr>, x: Xattr)
    requires Sorted(xs) && xs != [] && Compare(Name(xs[|xs| - 1]), Name(x)) > 0
    ensures Canonical(xs + [x], Insert(xs, x))
    decreases |xs|, 0
  {
    hide Compare, Name;
    var init, last := xs[..|xs| - 1], xs[|xs| - 1];
    var r := Insert(init, x);
    InsertKeeps(init, x);
    assert xs == init + [last];
    CompareSwap(Name(x), Name(last));
    forall i | 0 <= i < |r|
      ensures Compare(Name(r[i]), Name(last)) <= 0
    {
      assert r[i] in multiset(init + [x]);
      assert r[i] in init + [x];
    }
    assert Sorted(r + [last]);
  }

  method CanonicalizeXattrs(xattrs: Option<seq<Xattr>>) returns (r: seq<Xattr>)
    ensures xattrs.None? ==> r == []
    ensures xattrs.Some? ==> Canonical(xattrs.value, r)
  {
    r := [];
    if xattrs.None? {
      return;
    }
    var xs := xattrs.value;
    var i := 0;
    while i < |xs|
      invariant 0 <= i <= |xs| && Canonical(xs[..i], r)
    {
      InsertKeeps(r, xs[i]);
      assert xs[..i + 1] == xs[..i] + [xs[i]];
      r := Insert(r, xs[i]);
      i := i + 1;
    }
    assert xs[..i] == xs;
  }

  // --- one list, one canonical form -----------------------------------------------------

  /** Attributes of one name have one value too. */
  predicate Unambiguous(xs: seq<Xattr>) {
    forall x, y :: x in xs && y in xs && Name(x) == Name(y) ==> x == y
  }

  predicate Distinct(xs: seq<Xattr>) {
    forall i, j :: 0 <= i < j < |xs| ==> Name(xs[i]) != Name(xs[j])
  }

  lemma SameMembers(xs: seq<Xattr>, ys: seq<Xattr>)
    requires multiset(xs) == multiset(ys)
    ensures |xs| == |ys| && forall x :: x in xs <==> x in ys
  {
    assert |multiset(xs)| == |xs| && |multiset(ys)| == |ys|;
    assert forall x :: x in xs <==> x in multiset(xs);
    assert forall x :: x in ys <==> x in multiset(ys);
  }

  lemma TailKeeps(ys: seq<Xattr>)
    requires ys != []
    ensures multiset(ys[1..]) == multiset(ys) - multiset{ys[0]}
    ensures Sorted(ys) ==> Sorted(ys[1..])
    ensures Unambiguous(ys) ==> Unambiguous(ys[1..])
  {
    hide Compare, Name;
    assert ys == [ys[0]] + ys[1..];
  }

  /** Two sorted arrangements of unambiguous attributes are the same. */
  lemma {:induction false} SortedOnce(ys: seq<Xattr>, zs: seq<Xattr>)
    requires multiset(ys) == multiset(zs) && Sorted(ys) && Sorted(zs) && Unambiguous(ys)
    ensures ys == zs
  {
    hide Compare, Name, Sorted, Unambiguous;
    SameMembers(ys, zs);
    if ys != [] {
      SameHead(ys, zs);
      TailKeeps(ys);
      TailKeeps(zs);
      SortedOnce(ys[1..], zs[1..]);
      assert ys == [ys[0]] + ys[1..] && zs == [zs[0]] + zs[1..];
    }
  }

  lemma SameHead(ys: seq<Xattr>, zs: seq<Xattr>)
    requires multiset(ys) == multiset(zs) && Sorted(ys) && Sorted(zs) && Unambiguous(ys)
    requires ys != [] && zs != []
    ensures ys[0] == zs[0]
  {
    hide Compare, Name;
    SameMembers(ys, zs);
    assert ys[0] in zs && zs[0] in ys;
    var i :| 0 <= i < |zs| && zs[i] == ys[0];
    var j :| 0 <= j < |ys| && ys[j] == zs[0];
    if i > 0 && j > 0 {
      assert Compare(Name(zs[0]), Name(ys[0])) <= 0 && Compare(Name(ys[0]), Name(zs[0])) <= 0;
      CompareSwap(Name(zs[0]), Name(ys[0]));
      CompareEqual(Name(zs[0]), Name(ys[0]));
    }
  }

  lemma UnambiguousPermutes(xs: seq<Xattr>, ys: seq<Xattr>)
    requires multiset(xs) == multiset(ys)
    ensures Unambiguous(xs) == Unambiguous(ys)
  {
    hide Compare, Name;
    SameMembers(xs, ys);
  }

  /** The canonical form does not depend on the order the attributes came in. */
  lemma CanonicalUnique(xs: seq<Xattr>, ys: seq<Xattr>, xs': seq<Xattr>, ys': seq<Xattr>)
    requires multiset(xs) == multiset(xs') && Unambiguous(xs)
    requires Canonical(xs, ys) && Canonical(xs', ys')
    ensures ys == ys'
  {
    hide Compare, Name;
    UnambiguousPermutes(xs, ys);
    SortedOnce(ys, ys');
  }

  ghost predicate OneForm(xs: seq<Xattr>) {
    forall ys, zs :: Canonical(xs, ys) && Canonical(xs, zs) ==> ys == zs
  }

  /** Exactly the unambiguous lists have one canonical form. */
  lemma OneFormIff(xs: seq<Xattr>)
    ensures OneForm(xs) <==> Unambiguous(xs)
  {
    if Unambiguous(xs) {
      forall ys, zs | Canonical(xs, ys) && Canonical(xs, zs)
        ensures ys == zs
      {
        CanonicalUnique(xs, ys, xs, zs);
      }
    } else {
      TwoForms(xs);
    }
  }

  lemma {:induction false} HasCanonical(xs: seq<Xattr>) returns (ys: seq<Xattr>)
    ensures Canonical(xs, ys)
    decreases |xs|
  {
    if xs == [] {
      ys := [];
    } else {
      var init := xs[..|xs| - 1];
      ys := HasCanonical(init);
      assert xs == init + [xs[|xs| - 1]];
      InsertKeeps(ys, xs[|xs| - 1]);
      ys := Insert(ys, xs[|xs| - 1]);
    }
  }

  lemma SwapPermutes(ys: seq<Xattr>, i: nat, j: nat)
    requires i < |ys| && j < |ys| && i != j
    ensures multiset(ys[i := ys[j]][j := ys[i]]) == multiset(ys)
  {
    var once := ys[i := ys[j]];
    assert multiset(once) == multiset(ys) - multiset{ys[i]} + multiset{ys[j]};
    assert once[j] == ys[j];
    assert multiset(once[j := ys[i]]) == multiset(once) - multiset{ys[j]} + multiset{ys[i]};
  }

  lemma SwapKeeps(ys: seq<Xattr>, i: nat, j: nat)
    requires i < |ys| && j < |ys| && i != j && Name(ys[i]) == Name(ys[j]) && Sorted(ys)
    ensures var zs := ys[i := ys[j]][j := ys[i]]; multiset(zs) == multiset(ys) && Sorted(zs)
  {
    hide Compare, Name;
    SwapPermutes(ys, i, j);
    var zs := ys[i := ys[j]][j := ys[i]];
    assert forall k :: 0 <= k < |ys| ==> Name(zs[k]) == Name(ys[k]);
  }

  lemma TwoForms(xs: seq<Xattr>)
    requires !Unambiguous(xs)
    ensures !OneForm(xs)
  {
    hide Compare, Name, Sorted;
    var ys := HasCanonical(xs);
    SameMembers(xs, ys);
    var x, y :| x in xs && y in xs && Name(x) == Name(y) && x != y;
    var i :| 0 <= i < |ys| && ys[i] == x;
    var j :| 0 <= j < |ys| && ys[j] == y;
    var zs := ys[i := y][j := x];
    SwapKeeps(ys, i, j);
    assert Canonical(xs, zs) && zs[i] != ys[i];
  }

  // --- _ostree_validate_structureof_xattrs ----------------------------------------------

  predicate Validates(xs: seq<Xattr>) {
    && (forall i :: 0 <= i < |xs| ==> Name(xs[i]) != [])
    && (forall i, j :: 0 <= i < j < |xs| ==> Compare(Name(xs[i]), Name(xs[j])) < 0)
  }

  /** Comparing neighbours is enough. */
  method ValidateXattrs(xs: seq<Xattr>) returns (ok: bool)
    ensures ok <==> Validates(xs)
  {
    var previous: Option<Bytes> := None;
    var i := 0;
    while i < |xs|
      invariant 0 <= i <= |xs| && Validates(xs[..i])
      invariant previous == if i == 0 then None else Some(Name(xs[i - 1]))
    {
      var name := Name(xs[i]);
      if name == [] {
        return false;
      }
      if previous.Some? {
        var cmp := Compare(previous.value, name);
        if cmp >= 0 {
          assert !Validates(xs);
          return false;
        }
        StrictExtends(xs, i);
      }
      previous := Some(name);
      i := i + 1;
    }
    assert xs[..i] == xs;
    return true;
  }

  lemma StrictExtends(xs: seq<Xattr>, i: nat)
    requires 0 < i < |xs| && Validates(xs[..i])
    requires Compare(Name(xs[i - 1]), Name(xs[i])) < 0 && Name(xs[i]) != []
    ensures Validates(xs[..i + 1])
  {
    hide Compare, Name;
    assert forall k :: 0 <= k < i ==> xs[..i][k] == xs[k];
    forall k | 0 <= k < i
      ensures Compare(Name(xs[k]), Name(xs[i])) < 0
    {
      if k < i - 1 {
        CompareTransitive(Name(xs[k]), Name(xs[i - 1]), Name(xs[i]));
      }
    }
  }

  /** The canonical form passes exactly when the names are non-empty and distinct. */
  lemma CanonicalValidates(xs: seq<Xattr>, ys: seq<Xattr>)
    requires Canonical(xs, ys)
    ensures Validates(ys) <==> Distinct(xs) && forall x :: x in xs ==> Name(x) != []
  {
    hide Compare, Name;
    SameMembers(xs, ys);
    DistinctPermutes(xs, ys);
    DistinctPermutes(ys, xs);
    forall i, j | 0 <= i < j < |ys|
      ensures Compare(Name(ys[i]), Name(ys[j])) < 0 <==> Name(ys[i]) != Name(ys[j])
    {
      CompareEqual(Name(ys[i]), Name(ys[j]));
    }
  }

  /** A list that passes is in canonical form, and canonicalising leaves it alone. */
  lemma ValidatedIsCanonical(xs: seq<Xattr>, ys: seq<Xattr>)
    requires Validates(xs)
    ensures Canonical(xs, ys) <==> ys == xs
  {
    hide Compare, Name;
    if Canonical(xs, ys) {
      forall i, j | 0 <= i < j < |xs|
        ensures Name(xs[i]) != Name(xs[j])
      {
        CompareEqual(Name(xs[i]), Name(xs[j]));
      }
      CanonicalUnique(xs, ys, xs, xs);
    }
  }

  lemma DistinctPermutes(xs: seq<Xattr>, ys: seq<Xattr>)
    requires multiset(xs) == multiset(ys)
    ensures Distinct(ys) ==> Distinct(xs)
  {
    hide Compare, Name;
    SameMembers(xs, ys);
    forall i, j | Distinct(ys) && 0 <= i < j < |xs|
      ensures Name(xs[i]) != Name(xs[j])
    {
      if xs[i] == xs[j] {
        TwiceCounted(xs, i, j);
        CountedTwice(ys, xs[i]);
        assert false;
      } else {
        assert xs[i] in ys && xs[j] in ys;
      }
    }
  }

  lemma TwiceCounted(xs: seq<Xattr>, i: nat, j: nat)
    requires i < j < |xs| && xs[i] == xs[j]
    ensures multiset(xs)[xs[i]] >= 2
  {
    assert xs == xs[..j] + xs[j..];
    assert xs[i] in xs[..j] && xs[j] in xs[j..];
  }

  lemma CountedTwice(ys: seq<Xattr>, x: Xattr)
    requires multiset(ys)[x] >= 2
    ensures exists i, j :: 0 <= i < j < |ys| && ys[i] == x && ys[j] == x
  {
    var i := FirstOf(ys, x);
    assert ys == ys[..i] + [x] + ys[i + 1..];
    assert multiset(ys) == multiset(ys[..i]) + multiset{x} + multiset(ys[i + 1..]);
    assert x !in ys[..i];
    assert x in ys[i + 1..];
    var j :| 0 <= j < |ys[i + 1..]| && ys[i + 1..][j] == x;
    assert ys[i + 1 + j] == x;
  }

  lemma FirstOf(ys: seq<Xattr>, x: Xattr) returns (i: nat)
    requires x in multiset(ys)
    ensures i < |ys| && ys[i] == x && x !in ys[..i]
    decreases |ys|
  {
    assert x in ys;
    if ys[0] == x {
      i := 0;
    } else {
      assert ys == [ys[0]] + ys[1..];
      var k := FirstOf(ys[1..], x);
      i := k + 1;
      assert ys[..i] == [ys[0]] + ys[1..][..k];
    }
  }

  // --- headers that hold them -----------------------------------------------------------

  /** The stat fields of a file; the link target is empty unless it is a symbolic link. */
  datatype Info = Info(uid: nat, gid: nat, mode: nat, isLink: bool, target: string)

  datatype Header = Header(uid: nat, gid: nat, mode: nat, rdev: nat, target: string,
                           xattrs: seq<Xattr>)

  function LinkTarget(info: Info): string {
    if info.isLink then info.target else ""
  }

  ghost predicate HeaderOf(info: Info, xs: seq<Xattr>, h: Header) {
    h == Header(info.uid, info.gid, info.mode, 0, LinkTarget(info), h.xattrs) && Canonical(xs, h.xattrs)
  }

  method FileHeaderNew(info: Info, xattrs: Option<seq<Xattr>>) returns (h: Header)
    ensures HeaderOf(info, if xattrs.Some? then xattrs.value else [], h)
    ensures h.uid == info.uid && h.gid == info.gid && h.mode == info.mode && h.rdev == 0
    ensures h.target == if info.isLink then info.target else ""
    ensures multiset(h.xattrs) == multiset(if xattrs.Some? then xattrs.value else [])
  {
    var sorted := CanonicalizeXattrs(xattrs);
    var target := "";
    if info.isLink {
      target := info.target;
    }
    return Header(info.uid, info.gid, info.mode, 0, target, sorted);
  }

  /**
   * Two headers, and so the checksums of the files, agree exactly when the visible stat fields
   * and the attributes do, whatever order the attributes were read in.
   */
  lemma HeadersAgree(info: Info, xs: seq<Xattr>, h: Header, info': Info, xs': seq<Xattr>, h': Header)
    requires HeaderOf(info, xs, h) && HeaderOf(info', xs', h') && Unambiguous(xs)
    ensures h == h' <==>
              (info.uid, info.gid, info.mode, LinkTarget(info)) ==
              (info'.uid, info'.gid, info'.mode, LinkTarget(info')) &&
              multiset(xs) == multiset(xs')
  {
    if multiset(xs) == multiset(xs') {
      CanonicalUnique(xs, h.xattrs, xs', h'.xattrs);
    }
  }
}
