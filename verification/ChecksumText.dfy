/** Checksums as bytes, as hexadecimal text and as the modified base64 text of delta paths. */
module ChecksumText {
  import opened Options

  const DIGEST_LEN := 32
  const STRING_LEN := 64

  // --- hexadecimal ----------------------------------------------------------------------

  predicate LowerHex(c: char) {
    '0' <= c <= '9' || 'a' <= c <= 'f'
  }

  predicate IsHex(c: char) {
    LowerHex(c) || 'A' <= c <= 'F'
  }

  function HexDigit(d: nat): (c: char)
    requires d < 16
    ensures LowerHex(c) && HexValue(c) == d
  {
    if d < 10 then '0' + d as char else 'a' + (d - 10) as char
  }

  function HexValue(c: char): (d: nat)
    requires IsHex(c)
    ensures d < 16
  {
    if c <= '9' then (c - '0') as int
    else if c <= 'F' then (c - 'A') as int + 10
    else (c - 'a') as int + 10
  }

  lemma DigitOfHexValue(c: char)
    requires LowerHex(c)
    ensures HexDigit(HexValue(c)) == c
  {
  }

  /** The digits in their order: `0` to `9`, then `a` to `f`, which may be written in upper case. */
  lemma HexValues(c: char)
    ensures '0' <= c <= '9' ==> IsHex(c) && HexValue(c) == c as int - '0' as int
    ensures 'a' <= c <= 'f' ==> IsHex(c) && HexValue(c) == c as int - 'a' as int + 10
    ensures 'A' <= c <= 'F' ==> IsHex(c) && HexValue(c) == c as int - 'A' as int + 10
  {
  }

  /** Two lower-case digits for each byte, the high one first. */
  function Hex(b: seq<byte>): (s: string)
    ensures |s| == 2 * |b| && forall i :: 0 <= i < |s| ==> LowerHex(s[i])
  {
    if b == [] then "" else [HexDigit(b[0] / 16), HexDigit(b[0] % 16)] + Hex(b[1..])
  }

  function Unhex(s: string): (b: seq<byte>)
    requires |s| % 2 == 0 && forall i :: 0 <= i < |s| ==> IsHex(s[i])
    ensures |b| == |s| / 2
  {
    if s == "" then [] else [16 * HexValue(s[0]) + HexValue(s[1])] + Unhex(s[2..])
  }

  lemma {:induction false} UnhexHex(b: seq<byte>)
    ensures Unhex(Hex(b)) == b
  {
    if b != [] {
      assert Hex(b)[2..] == Hex(b[1..]);
      UnhexHex(b[1..]);
      assert b == [b[0]] + b[1..];
    }
  }

  /** Bytes give the text back exactly when it is in lower case. */
  lemma HexUnhex(s: string)
    requires |s| % 2 == 0 && forall i :: 0 <= i < |s| ==> IsHex(s[i])
    ensures Hex(Unhex(s)) == s <==> forall i :: 0 <= i < |s| ==> LowerHex(s[i])
  {
    if forall i :: 0 <= i < |s| ==> LowerHex(s[i]) {
      HexUnhexLower(s);
    }
  }

  lemma {:induction false} HexUnhexLower(s: string)
    requires |s| % 2 == 0 && forall i :: 0 <= i < |s| ==> LowerHex(s[i])
    ensures Hex(Unhex(s)) == s
  {
    hide HexDigit, HexValue;
    if s != "" {
      HexUnhexLower(s[2..]);
      assert s == [s[0], s[1]] + s[2..];
      assert Unhex(s)[1..] == Unhex(s[2..]);
      DigitOfHexValue(s[0]);
      DigitOfHexValue(s[1]);
    }
  }

  lemma {:induction false} UnhexAt(s: string, k: nat)
    requires |s| % 2 == 0 && forall i :: 0 <= i < |s| ==> IsHex(s[i])
    requires k < |s| / 2
    ensures Unhex(s)[k] == 16 * HexValue(s[2 * k]) + HexValue(s[2 * k + 1])
  {
    if k > 0 {
      UnhexAt(s[2..], k - 1);
    }
  }

  lemma {:induction false} HexAt(b: seq<byte>, k: nat)
    requires k < |b|
    ensures Hex(b)[2 * k] == HexDigit(b[k] / 16) && Hex(b)[2 * k + 1] == HexDigit(b[k] % 16)
  {
    if k > 0 {
      HexAt(b[1..], k - 1);
      assert Hex(b)[2..] == Hex(b[1..]);
    }
  }

  method InplaceToBytes(checksum: string, buf: array<byte>)
    requires |checksum| >= STRING_LEN && buf.Length >= DIGEST_LEN
    requires forall i :: 0 <= i < STRING_LEN ==> IsHex(checksum[i])
    modifies buf
    ensures buf[..DIGEST_LEN] == Unhex(checksum[..STRING_LEN])
    ensures buf[DIGEST_LEN..] == old(buf[DIGEST_LEN..])
  {
    ghost var text := checksum[..STRING_LEN];
    var i, j := 0, 0;
    while i < DIGEST_LEN
      invariant 0 <= i <= DIGEST_LEN && j == 2 * i
      invariant forall k :: 0 <= k < i ==> buf[k] == Unhex(text)[k]
      invariant forall k :: i <= k < buf.Length ==> buf[k] == old(buf[k])
    {
      UnhexAt(text, i);
      buf[i] := 16 * HexValue(checksum[j]) + HexValue(checksum[j + 1]);
      i, j := i + 1, j + 2;
    }
  }

  /** Ends the text with a NUL. */
  method InplaceFromBytes(csum: seq<byte>, buf: array<char>)
    requires |csum| == DIGEST_LEN && buf.Length > STRING_LEN
    modifies buf
    ensures buf[..STRING_LEN] == Hex(csum) && buf[STRING_LEN] == '\0'
    ensures buf[STRING_LEN + 1..] == old(buf[STRING_LEN + 1..])
  {
    var i, j := 0, 0;
    while i < DIGEST_LEN
      invariant 0 <= i <= DIGEST_LEN && j == 2 * i
      invariant forall k :: 0 <= k < j ==> buf[k] == Hex(csum)[k]
      invariant forall k :: j <= k < buf.Length ==> buf[k] == old(buf[k])
    {
      HexAt(csum, i);
      buf[j] := HexDigit(csum[i] / 16);
      buf[j + 1] := HexDigit(csum[i] % 16);
      i, j := i + 1, j + 2;
    }
    buf[j] := '\0';
  }

  /** A checksum as it is stored and passed around: 64 lower-case digits. */
  predicate Valid(checksum: string) {
    |checksum| == STRING_LEN && forall i :: 0 <= i < |checksum| ==> LowerHex(checksum[i])
  }

  method ValidateChecksumString(checksum: string) returns (ok: bool)
    ensures ok <==> Valid(checksum)
  {
    if |checksum| != STRING_LEN {
      return false;
    }
    var i := 0;
    while i < |checksum|
      invariant 0 <= i <= |checksum| && forall k :: 0 <= k < i ==> LowerHex(checksum[k])
    {
      var c := checksum[i] as int;
      if !((c >= 48 && c <= 57) || (c >= 97 && c <= 102)) {
        return false;
      }
      i := i + 1;
    }
    return true;
  }

  // --- base64, section 4 of RFC 4648 ----------------------------------------------------

  predicate InAlphabet(c: char) {
    'A' <= c <= 'Z' || 'a' <= c <= 'z' || '0' <= c <= '9' || c == '+' || c == '/'
  }

  function Digit(v: nat): (c: char)
    requires v < 64
    ensures InAlphabet(c) && Value(c) == v
  {
    if v < 26 then 'A' + v as char
    else if v < 52 then 'a' + (v - 26) as char
    else if v < 62 then '0' + (v - 52) as char
    else if v == 62 then '+' else '/'
  }

  function Value(c: char): (v: nat)
    requires InAlphabet(c)
    ensures v < 64
  {
    if c == '+' then 62
    else if c == '/' then 63
    else if c <= '9' then (c - '0') as int + 52
    else if c <= 'Z' then (c - 'A') as int
    else (c - 'a') as int + 26
  }

  lemma DigitOfValue(c: char)
    requires InAlphabet(c)
    ensures Digit(Value(c)) == c
  {
  }

  /** The alphabet in its order: upper case, lower case, digits, plus and slash. */
  lemma AlphabetValues(c: char)
    ensures 'A' <= c <= 'Z' ==> InAlphabet(c) && Value(c) == c as int - 'A' as int
    ensures 'a' <= c <= 'z' ==> InAlphabet(c) && Value(c) == c as int - 'a' as int + 26
    ensures '0' <= c <= '9' ==> InAlphabet(c) && Value(c) == c as int - '0' as int + 52
    ensures Value('+') == 62 && Value('/') == 63
  {
  }

  /** Groups of three bytes give four digits; a shorter last group is padded. */
  function Encode(b: seq<byte>): (s: string)
    ensures |s| == (|b| + 2) / 3 * 4
  {
    if b == [] then ""
    else if |b| == 1 then [Digit(b[0] / 4), Digit(b[0] % 4 * 16), '=', '=']
    else if |b| == 2 then
      [Digit(b[0] / 4), Digit(b[0] % 4 * 16 + b[1] / 16), Digit(b[1] % 16 * 4), '=']
    else
      assert (|b| + 2) / 3 == (|b| - 1) / 3 + 1;
      Quad(b[0], b[1], b[2]) + Encode(b[3..])
  }

  function Quad(a: byte, b: byte, c: byte): (q: string)
    ensures |q| == 4 && forall i :: 0 <= i < 4 ==> InAlphabet(q[i])
  {
    [Digit(a / 4), Digit(a % 4 * 16 + b / 16), Digit(b % 16 * 4 + c / 64), Digit(c % 64)]
  }

  /** A text whose length leaves at most one padding sign, at the end: any 3n or 3n + 2 bytes. */
  predicate Decodable(s: string) {
    |s| % 4 == 0 && forall i :: 0 <= i < |s| ==> InAlphabet(s[i]) || (i == |s| - 1 && s[i] == '=')
  }

  function Decode(s: string): (b: seq<byte>)
    requires Decodable(s)
    ensures |b| == |s| / 4 * 3 - (if s != "" && s[|s| - 1] == '=' then 1 else 0)
  {
    if s == "" then []
    else if s[3] == '=' then
      [First(s[0], s[1]), Second(s[1], s[2])]
    else
      [First(s[0], s[1]), Second(s[1], s[2]), Third(s[2], s[3])] + Decode(s[4..])
  }

  function First(p: char, q: char): (b: byte)
    requires InAlphabet(p) && InAlphabet(q)
    ensures b / 4 == Value(p) && b % 4 == Value(q) / 16
  {
    Value(p) * 4 + Value(q) / 16
  }

  function Second(p: char, q: char): (b: byte)
    requires InAlphabet(p) && InAlphabet(q)
    ensures b / 16 == Value(p) % 16 && b % 16 == Value(q) / 4
  {
    Value(p) % 16 * 16 + Value(q) / 4
  }

  function Third(p: char, q: char): (b: byte)
    requires InAlphabet(p) && InAlphabet(q)
    ensures b / 64 == Value(p) % 4 && b % 64 == Value(q)
  {
    Value(p) % 4 * 64 + Value(q)
  }

  lemma QuadBack(a: byte, b: byte, c: byte)
    ensures var q := Quad(a, b, c);
            First(q[0], q[1]) == a && Second(q[1], q[2]) == b && Third(q[2], q[3]) == c
  {
  }

  /** A group is one number, written to the base 256 and to the base 64, the high places first. */
  lemma QuadIsNumber(a: byte, b: byte, c: byte)
    ensures var q := Quad(a, b, c);
            (a * 256 + b) * 256 + c ==
            ((Value(q[0]) * 64 + Value(q[1])) * 64 + Value(q[2])) * 64 + Value(q[3])
  {
    hide Digit, Value;
  }

  /** The examples of section 10 of RFC 4648. */
  lemma Examples()
    ensures Encode([102, 111, 111]) == "Zm9v"
    ensures Encode([102, 111]) == "Zm8="
    ensures Encode([102]) == "Zg=="
  {
    var foo: seq<byte> := [102, 111, 111];
    assert foo[3..] == [];
  }

  lemma PairBack(a: byte, b: byte)
    ensures First(Digit(a / 4), Digit(a % 4 * 16 + b / 16)) == a
    ensures Second(Digit(a % 4 * 16 + b / 16), Digit(b % 16 * 4)) == b
  {
  }

  /** How a text ends: with the sign only if the last group is short of one byte. */
  predicate EndsRight(s: string, n: nat) {
    && (n % 3 == 2 ==> s != "" && s[|s| - 1] == '=')
    && (n % 3 == 0 && n > 0 ==> s != "" && s[|s| - 1] != '=')
  }

  lemma QuadInFront(q: string, rest: string, n: nat)
    requires |q| == 4 && (forall i :: 0 <= i < 4 ==> InAlphabet(q[i])) && Decodable(rest) && EndsRight(rest, n)
    requires rest == "" <==> n == 0
    ensures Decodable(q + rest) && EndsRight(q + rest, n + 3)
  {
    if rest == "" { assert q + rest == q; }
  }

  lemma ShortDecodable(b: seq<byte>)
    requires |b| == 2 || b == []
    ensures Decodable(Encode(b)) && EndsRight(Encode(b), |b|)
  {
    hide Digit, Value, Decodable, Decode;
    DecodeEncodeShort(b);
    if b != [] { assert Encode(b)[3] == '='; }
  }

  lemma {:induction false} EncodeDecodable(b: seq<byte>)
    requires |b| % 3 != 1
    ensures Decodable(Encode(b)) && EndsRight(Encode(b), |b|)
  {
    hide Quad, Encode, Decodable, EndsRight;
    if |b| < 3 {
      ShortDecodable(b);
    } else {
      EncodeDecodable(b[3..]);
      EncodeTriple([b[0], b[1], b[2]], b[3..]);
      QuadInFront(Quad(b[0], b[1], b[2]), Encode(b[3..]), |b| - 3);
      assert b == [b[0], b[1], b[2]] + b[3..];
    }
  }

  lemma DecodeQuad(a: byte, b: byte, c: byte, rest: string)
    requires Decodable(rest)
    ensures Decodable(Quad(a, b, c) + rest)
    ensures Decode(Quad(a, b, c) + rest) == [a, b, c] + Decode(rest)
  {
    hide Digit, Value, First, Second, Third, Quad;
    var q := Quad(a, b, c);
    QuadBack(a, b, c);
    assert (q + rest)[4..] == rest;
  }

  lemma EncodeTriple(b: seq<byte>, d: seq<byte>)
    requires |b| == 3
    ensures Encode(b + d) == Quad(b[0], b[1], b[2]) + Encode(d)
  {
    assert (b + d)[3..] == d;
  }

  lemma DecodeEncodeShort(b: seq<byte>)
    requires |b| == 2 || b == []
    ensures Decodable(Encode(b)) && Decode(Encode(b)) == b
  {
    hide Digit, Value, First, Second;
    if b != [] {
      PairBack(b[0], b[1]);
    }
  }

  lemma {:induction false} DecodeEncode(b: seq<byte>)
    requires |b| % 3 != 1
    ensures Decodable(Encode(b)) && Decode(Encode(b)) == b
  {
    hide Quad, Encode, Decode, Decodable;
    if |b| < 3 {
      DecodeEncodeShort(b);
    } else {
      DecodeEncode(b[3..]);
      DecodeQuad(b[0], b[1], b[2], Encode(b[3..]));
      EncodeTriple([b[0], b[1], b[2]], b[3..]);
      assert b == [b[0], b[1], b[2]] + b[3..];
    }
  }

  lemma QuadForth(p: char, q: char, r: char, t: char)
    requires InAlphabet(p) && InAlphabet(q) && InAlphabet(r) && InAlphabet(t)
    ensures Quad(First(p, q), Second(q, r), Third(r, t)) == [p, q, r, t]
  {
    hide Digit, Value, First, Second, Third;
    DigitOfValue(p);
    DigitOfValue(q);
    DigitOfValue(r);
    DigitOfValue(t);
  }

  /** The bits that the padding leaves over are dropped by decoding. */
  predicate NoStrayBits(s: string)
    requires Decodable(s)
  {
    s != "" && s[|s| - 1] == '=' ==> Value(s[|s| - 2]) % 4 == 0
  }

  lemma {:induction false} EncodeDecode(s: string)
    requires Decodable(s)
    ensures Encode(Decode(s)) == s <==> NoStrayBits(s)
  {
    hide Digit, Value, First, Second, Third, Quad, Encode;
    if s == "" || s[3] == '=' {
      EncodeDecodeShort(s);
    } else {
      var head := [First(s[0], s[1]), Second(s[1], s[2]), Third(s[2], s[3])];
      EncodeDecode(s[4..]);
      EncodeTriple(head, Decode(s[4..]));
      QuadForth(s[0], s[1], s[2], s[3]);
      assert s == [s[0], s[1], s[2], s[3]] + s[4..];
    }
  }

  lemma EncodeDecodeShort(s: string)
    requires Decodable(s) && (s == "" || s[3] == '=')
    ensures Encode(Decode(s)) == s <==> NoStrayBits(s)
  {
    hide Digit, Value, First, Second;
    if s != "" {
      assert s == [s[0], s[1], s[2], s[3]];
      PairForth(s[0], s[1], s[2]);
    }
  }

  lemma PairForth(p: char, q: char, r: char)
    requires InAlphabet(p) && InAlphabet(q) && InAlphabet(r)
    ensures var a, b := First(p, q), Second(q, r);
            Digit(a / 4) == p && Digit(a % 4 * 16 + b / 16) == q &&
            (Digit(b % 16 * 4) == r <==> Value(r) % 4 == 0)
  {
    hide Digit, Value, First, Second;
    var a, b := First(p, q), Second(q, r);
    DigitOfValue(p);
    DigitOfValue(q);
    DigitOfValue(r);
    assert a / 4 == Value(p) && a % 4 * 16 + b / 16 == Value(q);
    assert b % 16 * 4 == Value(r) / 4 * 4;
    assert Value(Digit(b % 16 * 4)) == b % 16 * 4;
  }

  // --- the modified base64 form ---------------------------------------------------------

  const B64_LEN := 43

  predicate InModified(c: char) {
    c != '/' && (InAlphabet(c) || c == '_')
  }

  function Underscored(s: string): (t: string)
    ensures |t| == |s| && forall i :: 0 <= i < |s| ==> t[i] == if s[i] == '/' then '_' else s[i]
  {
    seq(|s|, i requires 0 <= i < |s| => if s[i] == '/' then '_' else s[i])
  }

  function Slashed(s: string): (t: string)
    ensures |t| == |s| && forall i :: 0 <= i < |s| ==> t[i] == if s[i] == '_' then '/' else s[i]
  {
    seq(|s|, i requires 0 <= i < |s| => if s[i] == '_' then '/' else s[i])
  }

  /** A checksum's name in paths: base64 without the padding sign and without slashes. */
  predicate IsB64(s: string) {
    |s| == B64_LEN && forall i :: 0 <= i < |s| ==> InModified(s[i])
  }

  function B64(csum: seq<byte>): (s: string)
    requires |csum| == DIGEST_LEN
    ensures IsB64(s)
  {
    EncodeDecodable(csum);
    Underscored(Encode(csum)[..B64_LEN])
  }

  function Unb64(s: string): (csum: seq<byte>)
    requires IsB64(s)
    ensures |csum| == DIGEST_LEN
  {
    Decode(Slashed(s) + "=")
  }

  /** Where base64 has a slash the path has an underscore; all else is the same but for the padding. */
  lemma B64Chars(csum: seq<byte>, i: nat)
    requires |csum| == DIGEST_LEN && i < B64_LEN
    ensures |Encode(csum)| == 44 && Encode(csum)[43] == '='
    ensures B64(csum)[i] == if Encode(csum)[i] == '/' then '_' else Encode(csum)[i]
  {
    hide Encode, Digit, Value;
    EncodeDecodable(csum);
  }

  /** Decoding gives back the bytes that were encoded. */
  lemma Unb64B64(csum: seq<byte>)
    requires |csum| == DIGEST_LEN
    ensures Unb64(B64(csum)) == csum
  {
    hide Encode, Decode, Value, Digit;
    DecodeEncode(csum);
    EncodeDecodable(csum);
    assert Slashed(B64(csum)) + "=" == Encode(csum);
  }

  /** Encoding gives back the text exactly when its last digit has no stray bits. */
  lemma B64Unb64(s: string)
    requires IsB64(s)
    ensures B64(Unb64(s)) == s <==> Value(Slashed(s)[B64_LEN - 1]) % 4 == 0
  {
    hide Encode, Decode, Value, Digit;
    var t := Slashed(s) + "=";
    var e := Encode(Unb64(s));
    EncodeDecode(t);
    EncodeDecodable(Unb64(s));
    assert Underscored(Slashed(s)) == s;
    assert t[..B64_LEN] == Slashed(s);
    if B64(Unb64(s)) == s {
      assert Slashed(s) == e[..B64_LEN];
      assert e == t;
    }
  }

  /** The loop meets the padding sign at the last place only, where it writes the NUL. */
  method B64InplaceFromBytes(csum: seq<byte>, buf: array<char>)
    requires |csum| == DIGEST_LEN && buf.Length > B64_LEN
    modifies buf
    ensures buf[..B64_LEN] == B64(csum) && buf[B64_LEN] == '\0'
    ensures buf[B64_LEN + 1..] == old(buf[B64_LEN + 1..])
  {
    EncodeDecodable(csum);
    var tmp := Encode(csum);
    assert |tmp| == B64_LEN + 1;
    var i := 0;
    while i < |tmp|
      invariant 0 <= i <= |tmp|
      invariant forall k :: 0 <= k < i ==> buf[k] == if k == B64_LEN then '\0' else B64(csum)[k]
      invariant forall k :: i <= k < buf.Length ==> buf[k] == old(buf[k])
    {
      var c := tmp[i];
      if c == '=' {
        assert i == B64_LEN;
        buf[i] := '\0';
      } else if c == '/' {
        buf[i] := '_';
      } else {
        buf[i] := c;
      }
      i := i + 1;
    }
  }

  method B64InplaceToBytes(checksum: string, buf: array<byte>)
    requires |checksum| >= B64_LEN && IsB64(checksum[..B64_LEN]) && buf.Length >= DIGEST_LEN
    modifies buf
    ensures buf[..DIGEST_LEN] == Unb64(checksum[..B64_LEN])
    ensures buf[DIGEST_LEN..] == old(buf[DIGEST_LEN..])
  {
    var tmp := new char[B64_LEN + 1];
    var i := 0;
    while i < B64_LEN
      invariant 0 <= i <= B64_LEN
      invariant forall k :: 0 <= k < i ==> tmp[k] == Slashed(checksum[..B64_LEN])[k]
      invariant buf[..] == old(buf[..])
    {
      var c := checksum[i];
      if c == '_' {
        tmp[i] := '/';
      } else {
        tmp[i] := c;
      }
      i := i + 1;
    }
    tmp[B64_LEN] := '=';
    assert tmp[..] == Slashed(checksum[..B64_LEN]) + "=";
    var out := Decode(tmp[..]);
    forall k | 0 <= k < DIGEST_LEN {
      buf[k] := out[k];
    }
  }
}
