/**
 The Ogg page checksum. The register algorithm of the program is compared with the
 definition of section 6 of RFC 3533: the remainder of the message polynomial, times x^32,
 on division by the generator over GF(2). Polynomials are bit sequences, highest power first.
 */
module Checksum {
  import opened Prelude

  type Bits = seq<bool>

  /** An unsigned 32-bit register as its bits, most significant first. */
  type Word = w: Bits | |w| == 32 witness Zeros(32)

  /** The `width` low bits of a number, most significant first. */
  function BitsOf(value: nat, width: nat): (b: Bits)
    ensures |b| == width
  {
    if width == 0 then [] else BitsOf(value / 2, width - 1) + [value % 2 == 1]
  }

  function Power(n: nat): (p: nat)
    ensures p > 0
  {
    if n == 0 then 1 else 2 * Power(n - 1)
  }

  function ValueOf(b: Bits): nat {
    if b == [] then 0 else 2 * ValueOf(b[..|b| - 1]) + (if b[|b| - 1] then 1 else 0)
  }

  /** The lower terms of the generator polynomial, which the program writes as 0x04c11db7. */
  function Exponents(): set<int> {
    {26, 23, 22, 16, 12, 11, 10, 8, 7, 5, 4, 2, 1, 0}
  }

  /** The polynomial of degree below 32 with these terms. */
  function Polynomial(exponents: set<int>): (p: Word)
    ensures forall i :: 0 <= i < 32 ==> p[i] == (31 - i in exponents)
  {
    seq(32, i => 31 - i in exponents)
  }

  function Generator(): Word {
    Polynomial(Exponents())
  }

  /** x^32 plus the generator's lower terms. */
  function Divisor(): (d: Bits)
    ensures |d| == 33
  {
    [true] + Generator()
  }

  lemma ExtendBit(g: Bits, n: nat, v: nat, b: nat)
    requires n < |g| && b < 2 && g[..n] == BitsOf(v, n) && g[n] == (b == 1)
    ensures g[..n + 1] == BitsOf(2 * v + b, n + 1)
  {
    assert g[..n + 1] == g[..n] + [g[n]];
  }

  lemma ExtendDigit(g: Bits, n: nat, v: nat, a: nat, b: nat, c: nat, d: nat, w: nat)
    requires n + 4 <= |g| && a < 2 && b < 2 && c < 2 && d < 2 && g[..n] == BitsOf(v, n)
    requires g[n] == (a == 1) && g[n + 1] == (b == 1) && g[n + 2] == (c == 1) && g[n + 3] == (d == 1)
    requires w == 2 * (2 * (2 * (2 * v + a) + b) + c) + d
    ensures g[..n + 4] == BitsOf(w, n + 4)
  {
    ExtendBit(g, n, v, a);
    ExtendBit(g, n + 1, 2 * v + a, b);
    ExtendBit(g, n + 2, 2 * (2 * v + a) + b, c);
    ExtendBit(g, n + 3, 2 * (2 * (2 * v + a) + b) + c, d);
  }

  lemma GeneratorHighHalf()
    ensures Generator()[..16] == BitsOf(0x04c1, 16)
  {
    var g := Generator();
    assert g[..0] == BitsOf(0, 0);
    ExtendDigit(g, 0, 0, 0, 0, 0, 0, 0x0);
    ExtendDigit(g, 4, 0x0, 0, 1, 0, 0, 0x04);
    ExtendDigit(g, 8, 0x04, 1, 1, 0, 0, 0x04c);
    ExtendDigit(g, 12, 0x04c, 0, 0, 0, 1, 0x04c1);
  }

  lemma GeneratorLowBits(g: Word)
    requires g == Generator()
    ensures !g[16] && !g[17] && !g[18] && g[19] && g[20] && g[21] && !g[22] && g[23]
    ensures g[24] && !g[25] && g[26] && g[27] && !g[28] && g[29] && g[30] && g[31]
  {
  }

  /** The generator's terms are the set bits of 0x04c11db7. */
  lemma GeneratorIsHex(g: Word)
    requires g == Generator()
    ensures g == BitsOf(0x04c1_1db7, 32)
  {
    GeneratorHighHalf();
    GeneratorLowBits(g);
    LowHalf(g);
    assert g[..32] == g;
  }

  lemma LowHalf(g: Word)
    requires g[..16] == BitsOf(0x04c1, 16)
    requires !g[16] && !g[17] && !g[18] && g[19] && g[20] && g[21] && !g[22] && g[23]
    requires g[24] && !g[25] && g[26] && g[27] && !g[28] && g[29] && g[30] && g[31]
    ensures g[..32] == BitsOf(0x04c1_1db7, 32)
  {
    ExtendDigit(g, 16, 0x04c1, 0, 0, 0, 1, 0x04c11);
    ExtendDigit(g, 20, 0x04c11, 1, 1, 0, 1, 0x04c11d);
    ExtendDigit(g, 24, 0x04c11d, 1, 0, 1, 1, 0x04c11db);
    ExtendDigit(g, 28, 0x04c11db, 0, 1, 1, 1, 0x04c11db7);
  }

  // ----- Polynomials over GF(2) -----

  function Zeros(n: nat): (z: Bits)
    ensures |z| == n
  {
    seq(n, _ => false)
  }

  /** Sum of two polynomials: coefficients are added modulo 2. */
  function Xor(a: Bits, b: Bits): (c: Bits)
    requires |a| == |b|
    ensures |c| == |a|
    ensures forall i :: 0 <= i < |a| ==> c[i] == (a[i] != b[i])
  {
    seq(|a|, i requires 0 <= i < |a| => a[i] != b[i])
  }

  /** Product of two polynomials. */
  function Mul(q: Bits, g: Bits): (p: Bits)
    requires g != []
    ensures |p| == |q| + |g| - 1
  {
    if q == [] then Zeros(|g| - 1)
    else Xor(Row(q[0], g, |q| - 1), [false] + Mul(q[1..], g))
  }

  /** `r` has degree below 32 and message * x^32 == quotient * Divisor + r. */
  ghost predicate IsRemainder(message: Bits, r: Bits) {
    |r| == 32 && exists quotient: Bits :: Divides(message, quotient, r)
  }

  ghost predicate Divides(message: Bits, quotient: Bits, r: Bits)
    requires |r| == 32
  {
    |quotient| == |message| &&
    Xor(Mul(quotient, Divisor()), Zeros(|message|) + r) == message + Zeros(32)
  }

  lemma {:induction false} MulXor(p: Bits, q: Bits, g: Bits)
    requires |p| == |q| && g != []
    ensures Mul(Xor(p, q), g) == Xor(Mul(p, g), Mul(q, g))
  {
    if p != [] {
      MulXor(p[1..], q[1..], g);
      assert Xor(p, q)[1..] == Xor(p[1..], q[1..]);
      XorRows(p[0], q[0], g, |p| - 1, Mul(p[1..], g), Mul(q[1..], g));
    } else {
      assert Xor(Zeros(|g| - 1), Zeros(|g| - 1)) == Zeros(|g| - 1);
    }
  }

  /** One row of the schoolbook product: `g` or zero, moved up by `n` places. */
  function Row(t: bool, g: Bits, n: nat): (r: Bits)
    ensures |r| == |g| + n
  {
    (if t then g else Zeros(|g|)) + Zeros(n)
  }

  lemma XorRows(s: bool, t: bool, g: Bits, n: nat, x: Bits, y: Bits)
    requires |x| == |y| == n + |g| - 1
    ensures Xor(Row(s != t, g, n), [false] + Xor(x, y)) ==
      Xor(Xor(Row(s, g, n), [false] + x), Xor(Row(t, g, n), [false] + y))
  {
    forall i | 0 <= i < n + |g|
      ensures Xor(Row(s != t, g, n), [false] + Xor(x, y))[i]
           == Xor(Xor(Row(s, g, n), [false] + x), Xor(Row(t, g, n), [false] + y))[i]
    {
    }
  }

  /** A multiple of the divisor of degree below 32 is zero. */
  lemma {:induction false} NoSmallMultiple(q: Bits, r: Bits)
    requires |r| == 32
    requires Mul(q, Divisor()) == Zeros(|q|) + r
    ensures r == Zeros(32)
  {
    if q != [] {
      var rest := Mul(q[1..], Divisor());
      assert Mul(q, Divisor())[0] == q[0];
      assert (Zeros(|q|) + r)[0] == false;
      forall i | 0 <= i < |rest| ensures rest[i] == (Zeros(|q| - 1) + r)[i] {
        assert Mul(q, Divisor())[i + 1] == (Zeros(|q|) + r)[i + 1];
      }
      assert rest == Zeros(|q| - 1) + r;
      NoSmallMultiple(q[1..], r);
    } else {
      assert r == Zeros(0) + r;
    }
  }

  /** The remainder is unique, so `IsRemainder` pins the checksum down completely. */
  lemma RemainderUnique(message: Bits, r1: Bits, r2: Bits)
    requires IsRemainder(message, r1) && IsRemainder(message, r2)
    ensures r1 == r2
  {
    var q1 :| Divides(message, q1, r1);
    var q2 :| Divides(message, q2, r2);
    var n := |message|;
    MulXor(q1, q2, Divisor());
    var a, b := Mul(q1, Divisor()), Mul(q2, Divisor());
    forall i | 0 <= i < n + 32
      ensures Xor(a, b)[i] == (Zeros(n) + Xor(r1, r2))[i]
    {
      assert Xor(a, Zeros(n) + r1)[i] == Xor(b, Zeros(n) + r2)[i];
    }
    assert Xor(a, b) == Zeros(n) + Xor(r1, r2);
    NoSmallMultiple(Xor(q1, q2), Xor(r1, r2));
    forall i | 0 <= i < 32 ensures r1[i] == r2[i] {
      assert Xor(r1, r2)[i] == Zeros(32)[i];
    }
  }

  // ----- A 32-bit register fed one message bit at a time -----

  function Push(s: Bits, b: bool): (t: Bits)
    requires |s| == 32
    ensures |t| == 32
  {
    Xor(s[1..] + [false], if s[0] != b then Generator() else Zeros(32))
  }

  function Feed(s: Bits, m: Bits): (t: Bits)
    requires |s| == 32
    ensures |t| == 32
    decreases |m|
  {
    if m == [] then s else Feed(Push(s, m[0]), m[1..])
  }

  lemma {:induction false} FeedAppend(s: Bits, m: Bits, n: Bits)
    requires |s| == 32
    ensures Feed(s, m + n) == Feed(Feed(s, m), n)
    decreases |m|
  {
    if m == [] {
      assert m + n == n;
    } else {
      assert (m + n)[1..] == m[1..] + n;
      FeedAppend(Push(s, m[0]), m[1..], n);
    }
  }

  /** One step of long division, coefficient by coefficient. */
  lemma DivisionStepAt(s: Bits, m: Bits, low: Bits, f: Bits, i: nat)
    requires |s| == |f| == 32 && m != [] && |low| == |m| + 31 && i < |m| + 32
    requires Xor(low, Zeros(|m| - 1) + f) == Xor(Push(s, m[0]) + Zeros(|m| - 1), m[1..] + Zeros(32))
    ensures Xor(Xor(Row(s[0] != m[0], Divisor(), |m| - 1), [false] + low), Zeros(|m|) + f)[i] ==
      Xor(s + Zeros(|m|), m + Zeros(32))[i]
  {
    if i > 0 {
      var j := i - 1;
      var t := s[0] != m[0];
      assert Xor(low, Zeros(|m| - 1) + f)[j] == Xor(Push(s, m[0]) + Zeros(|m| - 1), m[1..] + Zeros(32))[j];
      assert (m[1..] + Zeros(32))[j] == (m + Zeros(32))[i];
      assert (Zeros(|m| - 1) + f)[j] == (Zeros(|m|) + f)[i];
      if j < 32 {
        assert Row(t, Divisor(), |m| - 1)[i] == (t && Generator()[j]);
      } else {
        assert !Row(t, Divisor(), |m| - 1)[i];
      }
    }
  }

  /** Feeding a message divides it: the register ends up holding the remainder. */
  lemma {:induction false} FeedDivides(s: Bits, m: Bits) returns (q: Bits)
    requires |s| == 32
    ensures |q| == |m|
    ensures Xor(Mul(q, Divisor()), Zeros(|m|) + Feed(s, m)) == Xor(s + Zeros(|m|), m + Zeros(32))
    decreases |m|
  {
    if m == [] {
      q := [];
      assert Xor(Zeros(32), Zeros(0) + s) == Xor(s + Zeros(0), m + Zeros(32));
    } else {
      var q' := FeedDivides(Push(s, m[0]), m[1..]);
      q := [s[0] != m[0]] + q';
      assert q[1..] == q';
      forall i | 0 <= i < |m| + 32
        ensures Xor(Mul(q, Divisor()), Zeros(|m|) + Feed(s, m))[i] == Xor(s + Zeros(|m|), m + Zeros(32))[i]
      {
        DivisionStepAt(s, m, Mul(q', Divisor()), Feed(s, m), i);
      }
    }
  }

  lemma {:induction false} FeedXor(s: Bits, t: Bits, m: Bits, n: Bits)
    requires |s| == |t| == 32 && |m| == |n|
    ensures Feed(Xor(s, t), Xor(m, n)) == Xor(Feed(s, m), Feed(t, n))
    decreases |m|
  {
    if m == [] {
    } else {
      assert Push(Xor(s, t), Xor(m, n)[0]) == Xor(Push(s, m[0]), Push(t, n[0]));
      assert Xor(m, n)[1..] == Xor(m[1..], n[1..]);
      FeedXor(Push(s, m[0]), Push(t, n[0]), m[1..], n[1..]);
    }
  }

  /** At most 32 message bits may as well be added into the register up front. */
  lemma {:induction false} FeedAhead(s: Bits, m: Bits)
    requires |s| == 32 && |m| <= 32
    ensures Feed(s, m) == Feed(Xor(s, m + Zeros(32 - |m|)), Zeros(|m|))
    decreases |m|
  {
    if m == [] {
      assert Xor(s, m + Zeros(32)) == s;
    } else {
      var ahead := Xor(s, m + Zeros(32 - |m|));
      var m' := m[1..];
      assert Push(ahead, false) == Xor(Push(s, m[0]), m' + Zeros(32 - |m'|));
      assert Zeros(|m|)[1..] == Zeros(|m'|);
      FeedAhead(Push(s, m[0]), m');
    }
  }

  /** x is invertible modulo the divisor: zero bits never clear a non-zero register. */
  lemma {:induction false} ZerosKeepNonZero(s: Bits, n: nat)
    requires |s| == 32 && s != Zeros(32)
    ensures Feed(s, Zeros(n)) != Zeros(32)
    decreases n
  {
    if n > 0 {
      var t := Push(s, false);
      var k :| 0 <= k < 32 && s[k];
      if !s[0] {
        assert t[k - 1];
      } else {
        assert Generator()[31];
        assert t[31];
      }
      assert Zeros(n)[1..] == Zeros(n - 1);
      ZerosKeepNonZero(t, n - 1);
    }
  }

  lemma {:induction false} ZerosKeepZero(n: nat)
    ensures Feed(Zeros(32), Zeros(n)) == Zeros(32)
  {
    if n > 0 {
      assert Push(Zeros(32), false) == Zeros(32);
      assert Zeros(n)[1..] == Zeros(n - 1);
      ZerosKeepZero(n - 1);
    }
  }

  /** A non-zero error pattern confined to 32 consecutive bits leaves a non-zero register. */
  lemma BurstLeavesTrace(lead: nat, burst: Bits, trail: nat)
    requires |burst| <= 32 && burst != Zeros(|burst|)
    ensures Feed(Zeros(32), Zeros(lead) + burst + Zeros(trail)) != Zeros(32)
  {
    var shifted := Xor(Zeros(32), burst + Zeros(32 - |burst|));
    var k :| 0 <= k < |burst| && burst[k];
    assert shifted[k];
    ZerosKeepZero(lead);
    FeedAppend(Zeros(32), Zeros(lead), burst);
    FeedAppend(Zeros(32), Zeros(lead) + burst, Zeros(trail));
    FeedAhead(Zeros(32), burst);
    ZerosKeepNonZero(shifted, |burst|);
    ZerosKeepNonZero(Feed(Zeros(32), burst), trail);
  }

  // ----- The program's loop -----

  /** A byte's bits, most significant first, as section 6 of RFC 3533 reads them. */
  function ByteBits(b: Byte): (bits: Bits)
    ensures |bits| == 8
  {
    BitsOf(b, 8)
  }

  function MessageBits(data: Bytes): (bits: Bits)
    ensures |bits| == 8 * |data|
  {
    if data == [] then [] else MessageBits(data[..|data| - 1]) + ByteBits(data[|data| - 1])
  }

  /** The register after one byte: added at the top, then shifted out by eight. */
  function AddByte(crc: Word, b: Byte): Word {
    Feed(Xor(crc, ByteBits(b) + Zeros(24)), Zeros(8))
  }

  function Crc(data: Bytes): Word {
    if data == [] then Zeros(32) else AddByte(Crc(data[..|data| - 1]), data[|data| - 1])
  }

  method OggCrc(data: Bytes) returns (crc: Word)
    ensures crc == Crc(data)
    ensures IsRemainder(MessageBits(data), crc)
  {
    crc := Zeros(32);
    for i := 0 to |data|
      invariant crc == Crc(data[..i])
    {
      crc := Xor(crc, ByteBits(data[i]) + Zeros(24));
      ghost var loaded := crc;
      for k := 0 to 8
        invariant crc == Feed(loaded, Zeros(k))
      {
        crc := Xor(crc[1..] + [false], if crc[0] then Generator() else Zeros(32));
        FeedAppend(loaded, Zeros(k), [false]);
        assert Zeros(k) + [false] == Zeros(k + 1);
      }
      assert data[..i + 1][..i] == data[..i];
    }
    assert data[..|data|] == data;
    CrcIsRemainder(data);
  }

  lemma AddByteFeeds(crc: Word, b: Byte)
    ensures AddByte(crc, b) == Feed(crc, ByteBits(b))
  {
    FeedAhead(crc, ByteBits(b));
  }

  /** Byte-wise and bit-wise feeding agree. */
  lemma {:induction false} CrcFeeds(data: Bytes)
    ensures Crc(data) == Feed(Zeros(32), MessageBits(data))
  {
    if data != [] {
      var front, b := data[..|data| - 1], data[|data| - 1];
      CrcFeeds(front);
      AddByteFeeds(Crc(front), b);
      FeedAppend(Zeros(32), MessageBits(front), ByteBits(b));
    }
  }

  // ----- What the checksum promises -----

  /** The program's checksum is the polynomial remainder the standard defines. */
  lemma CrcIsRemainder(data: Bytes)
    ensures IsRemainder(MessageBits(data), Crc(data))
  {
    var m := MessageBits(data);
    CrcFeeds(data);
    var q := FeedDivides(Zeros(32), m);
    XorZeros(m);
    assert Divides(m, q, Feed(Zeros(32), m));
  }

  lemma XorZeros(m: Bits)
    ensures Xor(Zeros(32) + Zeros(|m|), m + Zeros(32)) == m + Zeros(32)
  {
  }

  /** The checksum is linear over exclusive or of equal-length messages. */
  lemma CrcXorLinear(a: Bytes, b: Bytes, c: Bytes)
    requires |a| == |b| == |c|
    requires MessageBits(c) == Xor(MessageBits(a), MessageBits(b))
    ensures Crc(c) == Xor(Crc(a), Crc(b))
  {
    CrcFeeds(a);
    CrcFeeds(b);
    CrcFeeds(c);
    FeedXorFromZero(MessageBits(a), MessageBits(b));
  }

  lemma FeedXorFromZero(m: Bits, n: Bits)
    requires |m| == |n|
    ensures Feed(Zeros(32), Xor(m, n)) == Xor(Feed(Zeros(32), m), Feed(Zeros(32), n))
  {
    FeedXor(Zeros(32), Zeros(32), m, n);
    assert Xor(Zeros(32), Zeros(32)) == Zeros(32);
  }

  lemma SplitWindow(d: Bits, start: nat, width: nat)
    requires start + width <= |d|
    requires forall i :: 0 <= i < |d| && !(start <= i < start + width) ==> !d[i]
    ensures d == Zeros(start) + d[start..start + width] + Zeros(|d| - start - width)
  {
  }

  /** Two equal-length messages whose bits differ, but only inside a window of 32, never collide. */
  lemma CrcDetectsBursts(a: Bytes, b: Bytes, start: nat, width: nat)
    requires |a| == |b| && width <= 32 && start + width <= 8 * |a|
    requires MessageBits(a) != MessageBits(b)
    requires forall i :: 0 <= i < 8 * |a| && !(start <= i < start + width) ==> MessageBits(a)[i] == MessageBits(b)[i]
    ensures Crc(a) != Crc(b)
  {
    CrcFeeds(a);
    CrcFeeds(b);
    BurstsNeverCollide(MessageBits(a), MessageBits(b), start, width);
  }

  lemma BurstsNeverCollide(ma: Bits, mb: Bits, start: nat, width: nat)
    requires |ma| == |mb| && ma != mb && width <= 32 && start + width <= |ma|
    requires forall i :: 0 <= i < |ma| && !(start <= i < start + width) ==> ma[i] == mb[i]
    ensures Feed(Zeros(32), ma) != Feed(Zeros(32), mb)
  {
    var diff := Xor(ma, mb);
    var k :| 0 <= k < |ma| && ma[k] != mb[k];
    assert diff[k];
    WindowLeavesTrace(diff, start, width);
    FeedXorFromZero(ma, mb);
    var f := Feed(Zeros(32), ma);
    assert Xor(f, f) == Zeros(32);
  }

  lemma WindowLeavesTrace(diff: Bits, start: nat, width: nat)
    requires start + width <= |diff| && width <= 32 && diff != Zeros(|diff|)
    requires forall i :: 0 <= i < |diff| && !(start <= i < start + width) ==> !diff[i]
    ensures Feed(Zeros(32), diff) != Zeros(32)
  {
    SplitWindow(diff, start, width);
    var k :| 0 <= k < |diff| && diff[k];
    assert diff[start..start + width][k - start];
    BurstLeavesTrace(start, diff[start..start + width], |diff| - start - width);
  }

  lemma {:induction false} MessageBitsAt(data: Bytes, k: nat, j: nat)
    requires k < |data| && j < 8
    ensures MessageBits(data)[8 * k + j] == ByteBits(data[k])[j]
  {
    if k < |data| - 1 {
      MessageBitsAt(data[..|data| - 1], k, j);
    }
  }

  lemma {:induction false} BitsRoundTrip(value: nat, width: nat, limit: nat)
    requires limit == Power(width) && value < limit
    ensures ValueOf(BitsOf(value, width)) == value
  {
    if width > 0 {
      BitsRoundTrip(value / 2, width - 1, limit / 2);
      assert BitsOf(value, width)[..width - 1] == BitsOf(value / 2, width - 1);
    }
  }

  lemma DifferentBytes(x: Byte, y: Byte) returns (j: nat)
    requires x != y
    ensures j < 8 && ByteBits(x)[j] != ByteBits(y)[j]
  {
    assert Power(8) == 256 by {
      assert Power(4) == 16;
    }
    BitsRoundTrip(x, 8, 256);
    BitsRoundTrip(y, 8, 256);
    assert ByteBits(x) != ByteBits(y);
    j :| 0 <= j < 8 && ByteBits(x)[j] != ByteBits(y)[j];
  }

  /** In bytes: damage confined to four consecutive bytes always changes the checksum. */
  lemma CrcDetectsFourBytes(a: Bytes, b: Bytes, at: nat)
    requires |a| == |b| && a != b
    requires forall i :: 0 <= i < |a| && !(at <= i < at + 4) ==> a[i] == b[i]
    ensures Crc(a) != Crc(b)
  {
    var k :| 0 <= k < |a| && a[k] != b[k];
    var j := DifferentBytes(a[k], b[k]);
    MessageBitsAt(a, k, j);
    MessageBitsAt(b, k, j);
    var end := if at + 4 <= |a| then at + 4 else |a|;
    SameOutside(a, b, at, end);
    CrcDetectsBursts(a, b, 8 * at, 8 * (end - at));
  }

  lemma SameOutside(a: Bytes, b: Bytes, lo: nat, hi: nat)
    requires |a| == |b| && forall k :: 0 <= k < |a| && !(lo <= k < hi) ==> a[k] == b[k]
    ensures forall i :: 0 <= i < 8 * |a| && !(8 * lo <= i < 8 * hi) ==> MessageBits(a)[i] == MessageBits(b)[i]
  {
    forall i | 0 <= i < 8 * |a| && !(8 * lo <= i < 8 * hi)
      ensures MessageBits(a)[i] == MessageBits(b)[i]
    {
      var k, j := i / 8, i % 8;
      assert !(lo <= k < hi);
      SameBits(a, b, k, j);
    }
  }

  lemma SameBits(a: Bytes, b: Bytes, k: nat, j: nat)
    requires k < |a| == |b| && j < 8 && a[k] == b[k]
    ensures MessageBits(a)[8 * k + j] == MessageBits(b)[8 * k + j]
  {
    MessageBitsAt(a, k, j);
    MessageBitsAt(b, k, j);
  }
}
