/** The Bloom filter of src/libostree/ostree-bloom.c over any element type and hash function. */
module Blooms {

  /** The largest size in bytes whose number of bits still fits a 64-bit size. */
  const MAX_BYTES := 0x1FFF_FFFF_FFFF_FFFF

  // --- bits in bytes --------------------------------------------------------------------

  function Mask(i: nat): bv8
    requires i < 8
  {
    1 << i
  }

  predicate BitIn(b: bv8, i: nat)
    requires i < 8
  {
    b & Mask(i) != 0
  }

  /** Bit `i` of a byte is the one of weight 2 to the power of `i`. */
  lemma Masks()
    ensures Mask(0) == 1 && Mask(1) == 2 && Mask(2) == 4 && Mask(3) == 8
    ensures Mask(4) == 16 && Mask(5) == 32 && Mask(6) == 64 && Mask(7) == 128
  {
  }

  lemma SetOne(b: bv8, i: nat, j: nat)
    requires i < 8 && j < 8
    ensures BitIn(b | Mask(i), j) <==> i == j || BitIn(b, j)
  {
    Masks();
  }

  predicate BitAt(bytes: seq<bv8>, idx: nat)
    requires idx / 8 < |bytes|
  {
    BitIn(bytes[idx / 8], idx % 8)
  }

  ghost function Bits(bytes: seq<bv8>): set<nat> {
    set idx: nat | idx < 8 * |bytes| && BitAt(bytes, idx)
  }

  lemma SetBits(bytes: seq<bv8>, idx: nat)
    requires idx / 8 < |bytes|
    ensures Bits(bytes[idx / 8 := bytes[idx / 8] | Mask(idx % 8)]) == Bits(bytes) + {idx}
  {
    hide BitIn, Mask;
    var now := bytes[idx / 8 := bytes[idx / 8] | Mask(idx % 8)];
    forall k: nat | k < 8 * |bytes|
      ensures BitAt(now, k) <==> k == idx || BitAt(bytes, k)
    {
      if k / 8 == idx / 8 {
        SetOne(bytes[idx / 8], idx % 8, k % 8);
      }
    }
  }

  // --- positions of an element ----------------------------------------------------------

  /** The bits that stand for `e` in a filter of `m` bits with `k` hash functions. */
  ghost function Positions<E(!new)>(hash: (E, nat) -> nat, e: E, k: nat, m: nat): set<nat>
    requires m > 0
  {
    set i: nat | i < k :: hash(e, i) % m
  }

  ghost function AllPositions<E(!new)>(hash: (E, nat) -> nat, es: seq<E>, k: nat, m: nat): set<nat>
    requires m > 0
  {
    if es == [] then {} else AllPositions(hash, es[..|es| - 1], k, m) + Positions(hash, es[|es| - 1], k, m)
  }

  /** All of an element's bits are set: each hash, taken modulo the number of bits, meets a one. */
  lemma PositionsSet<E(!new)>(bytes: seq<bv8>, hash: (E, nat) -> nat, e: E, k: nat)
    requires bytes != []
    ensures Positions(hash, e, k, 8 * |bytes|) <= Bits(bytes) <==>
            forall i: nat :: i < k ==> BitAt(bytes, hash(e, i) % (8 * |bytes|))
  {
    hide BitAt;
    forall i: nat | i < k
      ensures hash(e, i) % (8 * |bytes|) in Positions(hash, e, k, 8 * |bytes|)
    {
    }
  }

  lemma {:induction false} AllPositionsHas<E(!new)>(hash: (E, nat) -> nat, es: seq<E>, e: E, k: nat, m: nat)
    requires m > 0 && e in es
    ensures Positions(hash, e, k, m) <= AllPositions(hash, es, k, m)
  {
    if es[|es| - 1] != e {
      AllPositionsHas(hash, es[..|es| - 1], e, k, m);
    }
  }

  /** A bit that is set comes from some element that was added. */
  lemma {:induction false} AllPositionsOnly<E(!new)>(hash: (E, nat) -> nat, es: seq<E>, idx: nat, k: nat, m: nat)
    requires m > 0 && idx in AllPositions(hash, es, k, m)
    ensures exists e :: e in es && idx in Positions(hash, e, k, m)
  {
    if idx in Positions(hash, es[|es| - 1], k, m) {
      assert es[|es| - 1] in es;
    } else {
      AllPositionsOnly(hash, es[..|es| - 1], idx, k, m);
    }
  }

  // --- the filter -----------------------------------------------------------------------

  class Bloom<E(!new)> {
    var isMutable: bool
    /** The owned buffer while mutable; null once its bytes have been handed over. */
    var mutableBytes: array?<bv8>
    var immutableBytes: seq<bv8>
    const nBytes: nat
    const k: nat
    const hash: (E, nat) -> nat
    ghost var added: seq<E>

    ghost predicate Valid()
      reads this, mutableBytes
    {
      && 0 < nBytes <= MAX_BYTES && 0 < k
      && (isMutable ==> mutableBytes != null && mutableBytes.Length == nBytes)
      && (!isMutable ==> mutableBytes == null && |immutableBytes| == nBytes)
    }

    /** The filter's bytes, whichever form holds them. */
    ghost function Bytes(): (s: seq<bv8>)
      requires Valid()
      reads this, mutableBytes
      ensures |s| == nBytes
    {
      if isMutable then mutableBytes[..] else immutableBytes
    }

    /** The set bits are exactly those of the elements added. */
    ghost predicate Exact()
      requires Valid()
      reads this, mutableBytes
    {
      Bits(Bytes()) == AllPositions(hash, added, k, 8 * nBytes)
    }

    constructor New(nBytes: nat, k: nat, hash: (E, nat) -> nat)
      requires 0 < nBytes <= MAX_BYTES && 0 < k
      ensures Valid() && Exact() && isMutable && fresh(mutableBytes) && added == []
      ensures this.nBytes == nBytes && this.k == k && this.hash == hash
    {
      this.nBytes, this.k, this.hash := nBytes, k, hash;
      isMutable, immutableBytes, added := true, [], [];
      mutableBytes := new bv8[nBytes](_ => 0);
      new;
      NoBits(mutableBytes[..]);
    }

    constructor NewFromBytes(bytes: seq<bv8>, k: nat, hash: (E, nat) -> nat)
      requires 0 < |bytes| <= MAX_BYTES && 0 < k
      ensures Valid() && !isMutable && Bytes() == bytes
      ensures this.nBytes == |bytes| && this.k == k && this.hash == hash
    {
      this.nBytes, this.k, this.hash := |bytes|, k, hash;
      isMutable, mutableBytes, immutableBytes := false, null, bytes;
      added := [];
    }

    method GetBit(idx: nat) returns (bit: bool)
      requires Valid() && idx / 8 < nBytes
      ensures bit <==> idx in Bits(Bytes())
    {
      var byte := if isMutable then mutableBytes[idx / 8] else immutableBytes[idx / 8];
      return byte & Mask(idx % 8) != 0;
    }

    method SetBit(idx: nat)
      requires Valid() && isMutable && idx / 8 < nBytes
      modifies mutableBytes
      ensures Valid() && Bits(Bytes()) == old(Bits(Bytes())) + {idx}
    {
      SetBits(mutableBytes[..], idx);
      mutableBytes[idx / 8] := mutableBytes[idx / 8] | Mask(idx % 8);
      assert mutableBytes[..] ==
             old(mutableBytes[..])[idx / 8 := old(mutableBytes[idx / 8]) | Mask(idx % 8)];
    }

    /** A call on a sealed filter is refused and changes nothing. */
    method AddElement(e: E)
      requires Valid()
      modifies this`added, mutableBytes
      ensures Valid() && (!isMutable ==> added == old(added))
      ensures isMutable ==> added == old(added) + [e]
      ensures isMutable ==> Bits(Bytes()) == old(Bits(Bytes())) + Positions(hash, e, k, 8 * nBytes)
      ensures old(Exact()) ==> Exact()
    {
      if !isMutable {
        return;
      }
      var i := 0;
      while i < k
        invariant 0 <= i <= k && Valid() && added == old(added)
        invariant Bits(Bytes()) == old(Bits(Bytes())) + Positions(hash, e, i, 8 * nBytes)
      {
        var idx := hash(e, i);
        SetBit(idx % (nBytes * 8));
        OneMore(hash, e, i, 8 * nBytes);
        i := i + 1;
      }
      added := added + [e];
      assert added[..|added| - 1] == old(added);
    }

    /** Present means that all of the element's bits are set. */
    method MaybeContains(e: E) returns (maybe: bool)
      requires Valid()
      ensures maybe <==> Positions(hash, e, k, 8 * nBytes) <= Bits(Bytes())
      ensures Exact() && e in added ==> maybe
    {
      ghost var m := 8 * nBytes;
      hide Bits, AllPositions;
      if Exact() && e in added {
        AllPositionsHas(hash, added, e, k, m);
      }
      maybe := true;
      var i := 0;
      while i < k && maybe
        invariant 0 <= i <= k
        invariant maybe ==> Positions(hash, e, i, m) <= Bits(Bytes())
        invariant !maybe ==> !(Positions(hash, e, k, m) <= Bits(Bytes()))
      {
        var idx := hash(e, i);
        maybe := GetBit(idx % (nBytes * 8));
        OneMore(hash, e, i, m);
        assert hash(e, i) % m in Positions(hash, e, k, m);
        i := i + 1;
      }
    }

    method Seal() returns (bytes: seq<bv8>)
      requires Valid()
      modifies this`isMutable, this`mutableBytes, this`immutableBytes
      ensures Valid() && !isMutable && bytes == Bytes() == old(Bytes())
    {
      if isMutable {
        isMutable := false;
        immutableBytes := mutableBytes[..];
        mutableBytes := null;
      }
      return immutableBytes;
    }
  }

  lemma NoBits(bytes: seq<bv8>)
    requires forall i :: 0 <= i < |bytes| ==> bytes[i] == 0
    ensures Bits(bytes) == {}
  {
    hide Mask;
    assert forall i: nat :: i < 8 ==> !BitIn(0, i);
  }

  lemma OneMore<E(!new)>(hash: (E, nat) -> nat, e: E, i: nat, m: nat)
    requires m > 0
    ensures Positions(hash, e, i + 1, m) == Positions(hash, e, i, m) + {hash(e, i) % m}
  {
    forall p | p in Positions(hash, e, i, m) + {hash(e, i) % m}
      ensures p in Positions(hash, e, i + 1, m)
    {
    }
  }

  /** No element is lost by later additions, by sealing, or by loading the sealed bytes. */
  method FillSealReload<E(!new)>(n: nat, k: nat, hash: (E, nat) -> nat, es: seq<E>, e: E)
    returns (before: bool, sealed: bool, loaded: bool)
    requires 0 < n <= MAX_BYTES && 0 < k
    ensures before == sealed == loaded
    ensures e in es ==> loaded
    ensures loaded <==> Positions(hash, e, k, 8 * n) <= AllPositions(hash, es, k, 8 * n)
  {
    var b := new Bloom<E>.New(n, k, hash);
    var i := 0;
    while i < |es|
      invariant 0 <= i <= |es| && b.Valid() && b.Exact() && b.isMutable && b.added == es[..i]
      invariant fresh(b) && fresh(b.mutableBytes) && b.nBytes == n && b.k == k && b.hash == hash
    {
      b.AddElement(es[i]);
      assert es[..i + 1] == es[..i] + [es[i]];
      i := i + 1;
    }
    assert es[..i] == es;
    before := b.MaybeContains(e);
    var bytes := b.Seal();
    sealed := b.MaybeContains(e);
    var c := new Bloom<E>.NewFromBytes(bytes, k, hash);
    loaded := c.MaybeContains(e);
  }
}
