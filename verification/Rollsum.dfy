/** The rolling checksum splitter of src/libostree/bupsplit.c. */
module Rollsums {
  import opened Options

  const CHAR_OFFSET := 31
  const WINDOW_SIZE := 64
  const BLOB_BITS := 13
  const BLOB_SIZE := 8192

  /** Arithmetic on `unsigned` wraps at 32 bits. */
  function Wrap(x: int): nat {
    x % 0x1_0000_0000
  }

  // --- the closed form ------------------------------------------------------------------

  /** The sum of the bytes, each raised by the offset. */
  function Sum(w: seq<byte>): int {
    if w == [] then 0 else w[0] + CHAR_OFFSET + Sum(w[1..])
  }

  /** The same sum with weights: the oldest byte counts |w| times, the newest once. */
  function WeightedSum(w: seq<byte>): int {
    if w == [] then 0 else |w| * (w[0] + CHAR_OFFSET) + WeightedSum(w[1..])
  }

  function Zeros(n: nat): (z: seq<byte>)
    ensures |z| == n && forall i :: 0 <= i < n ==> z[i] == 0
  {
    seq(n, i => 0)
  }

  /** The last 64 bytes of the input, with zeros in front of a shorter one. */
  function Window(h: seq<byte>): (w: seq<byte>)
    ensures |w| == WINDOW_SIZE
  {
    (Zeros(WINDOW_SIZE) + h)[|h|..]
  }

  function S1(h: seq<byte>): int {
    Sum(Window(h))
  }

  function S2(h: seq<byte>): int {
    WeightedSum(Window(h)) + 60512
  }

  /** The upper half is s1, the lower half the low bits of s2. */
  function Digest(h: seq<byte>): nat {
    Wrap(S1(h) * 0x1_0000) + S2(h) % 0x1_0000
  }

  /** Whether the input ends at a split point. */
  predicate Boundary(h: seq<byte>) {
    S2(h) % BLOB_SIZE == BLOB_SIZE - 1
  }

  /** What find_ofs reports of the digest at a split point. */
  function Strength(digest: nat): nat {
    BLOB_BITS + TrailingOnes(digest / 0x4000)
  }

  /** The number of one bits at the low end. */
  function TrailingOnes(x: nat): nat {
    if x % 2 == 1 then 1 + TrailingOnes(x / 2) else 0
  }

  lemma {:induction false} SumSnoc(w: seq<byte>, c: byte)
    ensures Sum(w + [c]) == Sum(w) + c + CHAR_OFFSET
    ensures WeightedSum(w + [c]) == WeightedSum(w) + Sum(w + [c])
  {
    if w != [] {
      assert (w + [c])[1..] == w[1..] + [c];
      SumSnoc(w[1..], c);
      assert |w + [c]| * (w[0] + CHAR_OFFSET) == |w| * (w[0] + CHAR_OFFSET) + (w[0] + CHAR_OFFSET);
    }
  }

  function Triangle(n: nat): nat {
    if n == 0 then 0 else n + Triangle(n - 1)
  }

  lemma {:induction false} TriangleIs(n: nat)
    ensures 2 * Triangle(n) == n * (n + 1)
  {
    if n > 0 { TriangleIs(n - 1); }
  }

  lemma Weighed(n: nat, x: int)
    requires 31 <= x <= 286
    ensures 31 * n <= n * x <= 286 * n
  {
  }

  lemma {:induction false} SumBounds(w: seq<byte>)
    ensures 31 * |w| <= Sum(w) <= 286 * |w|
    ensures 31 * Triangle(|w|) <= WeightedSum(w) <= 286 * Triangle(|w|)
  {
    if w != [] {
      SumBounds(w[1..]);
      Weighed(|w|, w[0] + CHAR_OFFSET);
    }
  }

  /** In every state the sums stay far inside 32 bits. */
  lemma StateBounds(h: seq<byte>)
    ensures 1984 <= S1(h) <= 18304 && 124992 <= S2(h) <= 655392
  {
    SumBounds(Window(h));
    TriangleIs(WINDOW_SIZE);
  }

  lemma WindowSnoc(h: seq<byte>, c: byte)
    ensures Window(h + [c]) == Window(h)[1..] + [c]
  {
    assert Zeros(WINDOW_SIZE) + (h + [c]) == Zeros(WINDOW_SIZE) + h + [c];
  }

  /** The incremental update follows the closed form. */
  lemma RollFollows(h: seq<byte>, c: byte)
    ensures var drop := Window(h)[0];
            && S1(h + [c]) == S1(h) + (c - drop)
            && S2(h + [c]) == S2(h) + S1(h + [c]) - WINDOW_SIZE * (drop + CHAR_OFFSET)
  {
    WindowSnoc(h, c);
    SumSnoc(Window(h)[1..], c);
  }

  /** What came before the last 64 bytes does not matter. */
  lemma WindowForgets(a: seq<byte>, b: seq<byte>, x: seq<byte>)
    requires |x| >= WINDOW_SIZE
    ensures Window(a + x) == Window(b + x) == x[|x| - WINDOW_SIZE..]
  {
    assert Zeros(WINDOW_SIZE) + (a + x) == Zeros(WINDOW_SIZE) + a + x;
    assert Zeros(WINDOW_SIZE) + (b + x) == Zeros(WINDOW_SIZE) + b + x;
  }

  /**
   Two inputs that agree on a stretch split in the same places from its 64th byte on, and
   have the same digests there, whatever they had before it.
   */
  lemma Resynchronises(a: seq<byte>, b: seq<byte>, x: seq<byte>, n: nat)
    requires WINDOW_SIZE <= n <= |x|
    ensures Boundary(a + x[..n]) == Boundary(b + x[..n])
    ensures Digest(a + x[..n]) == Digest(b + x[..n])
  {
    WindowForgets(a, b, x[..n]);
  }

  function Pow2(k: nat): nat {
    if k == 0 then 1 else 2 * Pow2(k - 1)
  }

  lemma {:induction false} TrailingOnesNeed(x: nat, k: nat)
    requires TrailingOnes(x) >= k
    ensures x >= Pow2(k) - 1
    decreases k
  {
    if k > 0 {
      TrailingOnesNeed(x / 2, k - 1);
    }
  }

  lemma TimesTwo(x: nat, y: nat)
    ensures 2 * x * y == 2 * (x * y)
  {
  }

  lemma {:induction false} Pow2Sum(i: nat, j: nat)
    ensures Pow2(i + j) == Pow2(i) * Pow2(j)
  {
    if i > 0 {
      Pow2Sum(i - 1, j);
      TimesTwo(Pow2(i - 1), Pow2(j));
    }
  }

  /** s1 is too small for the run of ones to go on: at most 16 follow the split mask. */
  lemma FewOnes(h: seq<byte>)
    ensures Strength(Digest(h)) <= 29
  {
    StateBounds(h);
    var x := Digest(h) / 0x4000;
    Pow2Sum(10, 7);
    assert Pow2(7) == 128 && Pow2(10) == 1024;
    if TrailingOnes(x) >= 17 {
      TrailingOnesNeed(x, 17);
    }
  }

  /** The circular buffer read from its oldest byte on. */
  function Unrolled(buffer: seq<byte>, wofs: nat): seq<byte>
    requires wofs < |buffer|
  {
    buffer[wofs..] + buffer[..wofs]
  }

  lemma UnrolledStep(buffer: seq<byte>, wofs: nat, ch: byte)
    requires wofs < |buffer| == WINDOW_SIZE
    ensures Unrolled(buffer, wofs)[0] == buffer[wofs]
    ensures Unrolled(buffer[wofs := ch], (wofs + 1) % WINDOW_SIZE) == Unrolled(buffer, wofs)[1..] + [ch]
  {
    var next := buffer[wofs := ch];
    if wofs + 1 == WINDOW_SIZE {
      assert next[0..] + next[..0] == buffer[..wofs] + [ch];
      assert Unrolled(buffer, wofs)[1..] == buffer[..wofs];
    } else {
      assert next[wofs + 1..] == buffer[wofs + 1..] && next[..wofs + 1] == buffer[..wofs] + [ch];
      assert Unrolled(buffer, wofs)[1..] == buffer[wofs + 1..] + buffer[..wofs];
    }
  }

  // --- the struct and its loops ---------------------------------------------------------

  class Rollsum {
    var s1: nat
    var s2: nat
    var window: array<byte>
    var wofs: nat
    ghost var seen: seq<byte>

    ghost predicate Valid()
      reads this, window
    {
      && window.Length == WINDOW_SIZE && wofs < WINDOW_SIZE
      && Unrolled(window[..], wofs) == Window(seen)
      && s1 == S1(seen) && s2 == S2(seen)
    }

    constructor ()
      ensures Valid() && seen == [] && fresh(window)
    {
      s1 := WINDOW_SIZE * CHAR_OFFSET;
      s2 := WINDOW_SIZE * (WINDOW_SIZE - 1) * CHAR_OFFSET;
      wofs := 0;
      window := new byte[WINDOW_SIZE](_ => 0);
      seen := [];
      new;
      hide S1, S2, Window;
      InitialSums();
      assert window[..] == Zeros(WINDOW_SIZE);
      assert Unrolled(window[..], 0) == window[..];
    }

    /** rollsum_add, with both sums wrapping. */
    method Add(drop: byte, add: byte)
      modifies this`s1, this`s2
      ensures s1 == Wrap(old(s1) + (add - drop))
      ensures s2 == Wrap(old(s2) + s1 - WINDOW_SIZE * (drop + CHAR_OFFSET))
    {
      s1 := Wrap(s1 + (add - drop));
      s2 := Wrap(s2 + s1 - WINDOW_SIZE * (drop + CHAR_OFFSET));
    }

    method Roll(ch: byte)
      requires Valid()
      modifies this, window
      ensures Valid() && seen == old(seen) + [ch] && window == old(window)
    {
      hide S1, S2, Window, Unrolled;
      UnrolledStep(window[..], wofs, ch);
      RollFollows(seen, ch);
      WindowSnoc(seen, ch);
      StateBounds(seen + [ch]);
      Add(window[wofs], ch);
      ghost var before := window[..];
      window[wofs] := ch;
      assert window[..] == before[wofs := ch];
      wofs := (wofs + 1) % WINDOW_SIZE;
      seen := seen + [ch];
    }

    method GetDigest() returns (d: nat)
      requires Valid()
      ensures d == Digest(seen)
    {
      d := Wrap(s1 * 0x1_0000) + s2 % 0x1_0000;
    }
  }

  lemma {:induction false} ZeroSums(n: nat)
    ensures Sum(Zeros(n)) == 31 * n && WeightedSum(Zeros(n)) == 31 * Triangle(n)
  {
    if n > 0 {
      assert Zeros(n)[1..] == Zeros(n - 1);
      ZeroSums(n - 1);
    }
  }

  lemma InitialSums()
    ensures Window([]) == Zeros(WINDOW_SIZE) && S1([]) == 1984 && S2([]) == 124992
  {
    assert Window([]) == Zeros(WINDOW_SIZE);
    ZeroSums(WINDOW_SIZE);
    TriangleIs(WINDOW_SIZE);
  }

  method BupsplitSum(buf: seq<byte>, ofs: nat, len: nat) returns (d: nat)
    requires len <= |buf|
    ensures d == Digest(if ofs <= len then buf[ofs..len] else [])
  {
    var r := new Rollsum();
    var count := ofs;
    while count < len
      invariant r.Valid() && fresh(r) && fresh(r.window)
      invariant if ofs <= len then ofs <= count <= len && r.seen == buf[ofs..count] else r.seen == []
    {
      r.Roll(buf[count]);
      count := count + 1;
    }
    d := r.GetDigest();
  }

  /** The first split point of the buffer, or 0, and the strength of the split. */
  method FindOfs(buf: seq<byte>) returns (ofs: nat, bits: nat)
    ensures ofs <= |buf|
    ensures forall n :: 0 < n <= |buf| && (ofs == 0 || n < ofs) ==> !Boundary(buf[..n])
    ensures ofs > 0 ==> Boundary(buf[..ofs]) && bits == Strength(Digest(buf[..ofs]))
    ensures ofs > 0 ==> BLOB_BITS <= bits <= 29
    ensures forall n :: 0 < n <= |buf| && (ofs == 0 || n < ofs) ==> TrailingOnes(Digest(buf[..n])) < 13
    ensures ofs > 0 ==> TrailingOnes(Digest(buf[..ofs])) >= 13
  {
    hide TrailingOnes, Boundary, Digest;
    forall n | 0 < n <= |buf|
      ensures Boundary(buf[..n]) <==> TrailingOnes(Digest(buf[..n])) >= 13
    {
      BoundaryIff(buf[..n]);
    }
    var r := new Rollsum();
    for count := 0 to |buf|
      invariant r.Valid() && fresh(r) && fresh(r.window) && r.seen == buf[..count]
      invariant forall n :: 0 < n <= count ==> !Boundary(buf[..n])
    {
      r.Roll(buf[count]);
      assert buf[..count + 1] == buf[..count] + [buf[count]];
      BoundaryIs(r.seen);
      if r.s2 % BLOB_SIZE == BLOB_SIZE - 1 {
        var rsum := r.GetDigest();
        bits := CountBits(rsum);
        FewOnes(buf[..count + 1]);
        return count + 1, bits;
      }
    }
    return 0, 0;
  }

  lemma ShiftAgain(x: nat)
    ensures x / 0x2000 / 2 == x / 0x4000
  {
    var q, r := x / 0x4000, x % 0x4000;
    assert x == 0x2000 * (2 * q) + r;
    assert x / 0x2000 == 2 * q + r / 0x2000;
  }

  /** The inner loop: drop 13 bits, then shift before each test, so bit 13 is never looked at. */
  method CountBits(digest: nat) returns (bits: nat)
    ensures bits == Strength(digest)
  {
    var rsum: nat := digest / 0x2000;
    bits := BLOB_BITS;
    rsum := rsum / 2;
    ShiftAgain(digest);
    while rsum % 2 == 1
      invariant bits + TrailingOnes(rsum) == BLOB_BITS + TrailingOnes(digest / 0x4000)
      decreases rsum
    {
      bits := bits + 1;
      rsum := rsum / 2;
    }
  }

  /** `q` with `k` ones behind it. */
  function WithOnes(q: nat, k: nat): nat {
    if k == 0 then q else 2 * WithOnes(q, k - 1) + 1
  }

  lemma {:induction false} OnesCome(q: nat, k: nat)
    ensures TrailingOnes(WithOnes(q, k)) == k + TrailingOnes(q)
  {
    if k > 0 { OnesCome(q, k - 1); }
  }

  lemma Thirteen(q: nat)
    ensures WithOnes(q, 13) == q * 0x2000 + 0x1FFF
  {
    assert WithOnes(q, 0) == q && WithOnes(q, 1) == q * 2 + 1;
    assert WithOnes(q, 2) == q * 0x4 + 0x3 && WithOnes(q, 4) == q * 0x10 + 0xF;
    assert WithOnes(q, 6) == q * 0x40 + 0x3F && WithOnes(q, 8) == q * 0x100 + 0xFF;
    assert WithOnes(q, 10) == q * 0x400 + 0x3FF && WithOnes(q, 12) == q * 0x1000 + 0xFFF;
  }

  lemma {:induction false} OnesBelow(x: nat, q: nat, r: nat, k: nat)
    requires x == q * Pow2(k) + r && r < Pow2(k) && r != Pow2(k) - 1
    ensures TrailingOnes(x) < k
    decreases k
  {
    if k > 0 && x % 2 == 1 {
      var p := Pow2(k - 1);
      assert q * (2 * p) == 2 * (q * p);
      assert x / 2 == q * p + r / 2;
      OnesBelow(x / 2, q, r / 2, k - 1);
    }
  }

  lemma Pow2Of13()
    ensures Pow2(13) == 0x2000
  {
    assert Pow2(1) == 2 && Pow2(2) == 4 && Pow2(4) == 16;
    Pow2Sum(4, 4);
    Pow2Sum(8, 4);
    Pow2Sum(12, 1);
  }

  /** The digest holds s1 above and the low half of s2 below. */
  lemma DigestParts(h: seq<byte>)
    ensures Digest(h) / 0x1_0000 == S1(h) && Digest(h) % 0x1_0000 == S2(h) % 0x1_0000
  {
    StateBounds(h);
  }

  /** A split point is where the digest, as s2, ends in thirteen ones. */
  lemma BoundaryIff(h: seq<byte>)
    ensures Boundary(h) <==> TrailingOnes(Digest(h)) >= 13
  {
    hide Digest, S2, S1, TrailingOnes;
    DigestParts(h);
    StateBounds(h);
    LowBits(Digest(h), S2(h));
    ThirteenOnes(Digest(h));
  }

  lemma LowBits(d: nat, s: nat)
    requires d % 0x1_0000 == s % 0x1_0000
    ensures d % 0x2000 == s % 0x2000
  {
    assert d == 0x2000 * (8 * (d / 0x1_0000)) + d % 0x1_0000;
    assert s == 0x2000 * (8 * (s / 0x1_0000)) + s % 0x1_0000;
  }

  lemma ThirteenOnes(d: nat)
    ensures TrailingOnes(d) >= 13 <==> d % 0x2000 == 0x1FFF
  {
    hide TrailingOnes, WithOnes, Pow2;
    var q, r := d / 0x2000, d % 0x2000;
    if r == 0x1FFF {
      Thirteen(q);
      OnesCome(q, 13);
    } else {
      Pow2Of13();
      OnesBelow(d, q, r, 13);
    }
  }

  lemma BoundaryIs(h: seq<byte>)
    ensures Boundary(h) <==> S2(h) % BLOB_SIZE == BLOB_SIZE - 1
  {
  }

  lemma RunsAgree(x: nat)
    ensures TrailingOnes(x / 2) == TrailingOnes(x) <==> x % 4 == 0
  {
    hide TrailingOnes;
    OnesStep(x);
    OnesStep(x / 2);
    TwoLowBits(x);
  }

  lemma TwoLowBits(x: nat)
    ensures x % 4 == 0 <==> x % 2 == 0 && x / 2 % 2 == 0
  {
    var q, r := x / 4, x % 4;
    assert x == 2 * (2 * q + r / 2) + r % 2;
    assert x / 2 == 2 * q + r / 2;
  }

  lemma OnesStep(x: nat)
    ensures TrailingOnes(x) == if x % 2 == 1 then 1 + TrailingOnes(x / 2) else 0
  {
  }

  /**
   At a split point the count is the true length of the run of ones at the digest's low end exactly
   when bits 13 and 14 are both zero: a zero at bit 13 is passed over, a one there is not counted.
   */
  lemma CountIsRunIff(digest: nat)
    requires digest % BLOB_SIZE == BLOB_SIZE - 1
    ensures Strength(digest) == TrailingOnes(digest) <==> digest / 0x2000 % 4 == 0
  {
    hide TrailingOnes, WithOnes;
    Thirteen(digest / BLOB_SIZE);
    OnesCome(digest / BLOB_SIZE, BLOB_BITS);
    ShiftAgain(digest);
    RunsAgree(digest / BLOB_SIZE);
  }

  /** A digest whose run of 13 ones is counted as 14, since bit 13 is zero and bit 14 is not. */
  lemma CountSkipsBit13()
    ensures 0x5FFF % BLOB_SIZE == BLOB_SIZE - 1
    ensures Strength(0x5FFF) == 14 && TrailingOnes(0x5FFF) == 13
  {
    Thirteen(2);
    OnesCome(2, BLOB_BITS);
  }
}
