/** SHA-256 (FIPS 180-4), HMAC-SHA256 (RFC 2104) and the constant-time comparison. */
module Sha256 {

  type Word = bv32

  type Octet = bv8

  // ---- Constants (sections 4.2.2 and 5.3.3) ----

  const K: seq<Word> := [
    0x428a_2f98, 0x7137_4491, 0xb5c0_fbcf, 0xe9b5_dba5, 0x3956_c25b, 0x59f1_11f1, 0x923f_82a4, 0xab1c_5ed5,
    0xd807_aa98, 0x1283_5b01, 0x2431_85be, 0x550c_7dc3, 0x72be_5d74, 0x80de_b1fe, 0x9bdc_06a7, 0xc19b_f174,
    0xe49b_69c1, 0xefbe_4786, 0x0fc1_9dc6, 0x240c_a1cc, 0x2de9_2c6f, 0x4a74_84aa, 0x5cb0_a9dc, 0x76f9_88da,
    0x983e_5152, 0xa831_c66d, 0xb003_27c8, 0xbf59_7fc7, 0xc6e0_0bf3, 0xd5a7_9147, 0x06ca_6351, 0x1429_2967,
    0x27b7_0a85, 0x2e1b_2138, 0x4d2c_6dfc, 0x5338_0d13, 0x650a_7354, 0x766a_0abb, 0x81c2_c92e, 0x9272_2c85,
    0xa2bf_e8a1, 0xa81a_664b, 0xc24b_8b70, 0xc76c_51a3, 0xd192_e819, 0xd699_0624, 0xf40e_3585, 0x106a_a070,
    0x19a4_c116, 0x1e37_6c08, 0x2748_774c, 0x34b0_bcb5, 0x391c_0cb3, 0x4ed8_aa4a, 0x5b9c_ca4f, 0x682e_6ff3,
    0x748f_82ee, 0x78a5_636f, 0x84c8_7814, 0x8cc7_0208, 0x90be_fffa, 0xa450_6ceb, 0xbef9_a3f7, 0xc671_78f2]

  const H0: seq<Word> := [
    0x6a09_e667, 0xbb67_ae85, 0x3c6e_f372, 0xa54f_f53a, 0x510e_527f, 0x9b05_688c, 0x1f83_d9ab, 0x5be0_cd19]

  // ---- Padding (section 5.1.1) ----

  /** `n` in `count` big-endian bytes. */
  function BigEndian(n: nat, count: nat): (r: seq<Octet>)
    ensures |r| == count
  {
    if count == 0 then [] else BigEndian(n / 256, count - 1) + [(n % 256) as Octet]
  }

  function Zeros(n: nat): (r: seq<Octet>)
    ensures |r| == n && forall i :: 0 <= i < n ==> r[i] == 0
  {
    seq(n, i => 0)
  }

  /** The smallest count of zero bytes that brings the message and its `1` bit to 56 modulo 64. */
  function ZeroCount(length: nat): (z: nat)
    ensures z < 64 && (length + 1 + z) % 64 == 56
  {
    (55 - length) % 64
  }

  lemma ZeroCountIsLeast(length: nat, y: nat)
    requires y < ZeroCount(length)
    ensures (length + 1 + y) % 64 != 56
  {
  }

  function BitLength(length: nat): (n: nat)
    ensures n < 0x1_0000_0000_0000_0000
  {
    length * 8 % 0x1_0000_0000_0000_0000
  }

  function Padded(data: seq<Octet>): (r: seq<Octet>)
    ensures |r| % 64 == 0
  {
    EightMore(|data| + 1 + ZeroCount(|data|));
    data + [0x80] + Zeros(ZeroCount(|data|)) + BigEndian(BitLength(|data|), 8)
  }

  lemma EightMore(n: nat)
    requires n % 64 == 56
    ensures (n + 8) % 64 == 0
  {
  }

  method Pad(data: seq<Octet>) returns (msg: seq<Octet>)
    ensures msg == Padded(data)
  {
    msg := data + [0x80];
    ghost var z := 0;
    while |msg| % 64 != 56
      invariant z <= ZeroCount(|data|)
      invariant msg == data + [0x80] + Zeros(z)
      decreases ZeroCount(|data|) - z
    {
      assert z != ZeroCount(|data|);
      msg := msg + [0];
      z := z + 1;
    }
    if z < ZeroCount(|data|) {
      ZeroCountIsLeast(|data|, z);
    }
    msg := msg + BigEndian(BitLength(|data|), 8);
  }

  /** The padded length is the least multiple of 64 with room for the `1` bit and the length. */
  lemma PaddedIsLeastMultiple(data: seq<Octet>, n: nat)
    requires n % 64 == 0 && n >= |data| + 9
    ensures |data| + 9 <= |Padded(data)| <= n
  {
    var z := ZeroCount(|data|);
    assert |Padded(data)| == |data| + 9 + z;
    NoMultipleBetween(n, |data| + 9 + z);
  }

  lemma NoMultipleBetween(m: nat, n: nat)
    requires m % 64 == 0 && n % 64 == 0 && m > n - 64
    ensures m >= n
  {
  }

  /** Messages of any length are told apart by their padding. */
  lemma PaddingIsInjective(a: seq<Octet>, b: seq<Octet>)
    requires Padded(a) == Padded(b)
    ensures a == b
  {
    if |a| < |b| {
      LongerDiffers(a, b);
    } else if |b| < |a| {
      LongerDiffers(b, a);
    } else {
      assert a == Padded(a)[..|a|] && b == Padded(b)[..|b|];
    }
  }

  lemma LongerDiffers(a: seq<Octet>, b: seq<Octet>)
    requires |a| < |b|
    ensures Padded(a) != Padded(b)
  {
    var p, q := Padded(a), Padded(b);
    if |p| == |q| {
      assert q[|b|] == 0x80;
      assert |a| < |b| < |p| - 8;
      assert p[|b|] == Zeros(ZeroCount(|a|))[|b| - |a| - 1];
    }
  }

  // ---- Functions on words (sections 3.2 and 4.1.2) ----

  /** Addition modulo 2^32. */
  function Add(x: Word, y: Word): Word {
    x + y
  }

  function Ch(x: Word, y: Word, z: Word): Word {
    (x & y) ^ (!x & z)
  }

  function Maj(x: Word, y: Word, z: Word): Word {
    (x & y) ^ (x & z) ^ (y & z)
  }

  function BigSigma0(x: Word): Word {
    ((x >> 2) | (x << 30)) ^ ((x >> 13) | (x << 19)) ^ ((x >> 22) | (x << 10))
  }

  function BigSigma1(x: Word): Word {
    ((x >> 6) | (x << 26)) ^ ((x >> 11) | (x << 21)) ^ ((x >> 25) | (x << 7))
  }

  function SmallSigma0(x: Word): Word {
    ((x >> 7) | (x << 25)) ^ ((x >> 18) | (x << 14)) ^ (x >> 3)
  }

  function SmallSigma1(x: Word): Word {
    ((x >> 17) | (x << 15)) ^ ((x >> 19) | (x << 13)) ^ (x >> 10)
  }

  // ---- The hash (section 6.2.2) ----

  function FromBytes(a: Octet, b: Octet, c: Octet, d: Octet): Word {
    ((a as Word) << 24) | ((b as Word) << 16) | ((c as Word) << 8) | (d as Word)
  }

  function Sum4(a: Word, b: Word, c: Word, d: Word): Word {
    Add(Add(Add(a, b), c), d)
  }

  /** Word `t` of the message schedule; the sum is written in the program's order. */
  function W(block: seq<Octet>, t: nat): Word
    requires |block| == 64
  {
    if t < 16 then FromBytes(block[4 * t], block[4 * t + 1], block[4 * t + 2], block[4 * t + 3])
    else Sum4(W(block, t - 16), SmallSigma0(W(block, t - 15)), W(block, t - 7), SmallSigma1(W(block, t - 2)))
  }

  datatype Registers = Registers(a: Word, b: Word, c: Word, d: Word, e: Word, f: Word, g: Word, h: Word)

  function Step(r: Registers, k: Word, w: Word): Registers {
    var t1 := Add(Sum4(r.h, BigSigma1(r.e), Ch(r.e, r.f, r.g), k), w);
    var t2 := Add(BigSigma0(r.a), Maj(r.a, r.b, r.c));
    Registers(Add(t1, t2), r.a, r.b, r.c, Add(r.d, t1), r.e, r.f, r.g)
  }

  function Rounds(block: seq<Octet>, start: Registers, t: nat): Registers
    requires |block| == 64 && t <= 64
  {
    if t == 0 then start else Step(Rounds(block, start, t - 1), K[t - 1], W(block, t - 1))
  }

  function Load(h: seq<Word>): Registers
    requires |h| == 8
  {
    Registers(h[0], h[1], h[2], h[3], h[4], h[5], h[6], h[7])
  }

  function AddTo(h: seq<Word>, r: Registers): (s: seq<Word>)
    requires |h| == 8
    ensures |s| == 8
  {
    [Add(h[0], r.a), Add(h[1], r.b), Add(h[2], r.c), Add(h[3], r.d), Add(h[4], r.e), Add(h[5], r.f), Add(h[6], r.g), Add(h[7], r.h)]
  }

  function Compressed(h: seq<Word>, block: seq<Octet>): (s: seq<Word>)
    requires |h| == 8 && |block| == 64
    ensures |s| == 8
  {
    AddTo(h, Rounds(block, Load(h), |block|))
  }

  function Block(msg: seq<Octet>, i: nat): (r: seq<Octet>)
    requires 64 * (i + 1) <= |msg|
    ensures |r| == 64
  {
    msg[64 * i..64 * (i + 1)]
  }

  /** The hash value after `n` blocks. */
  function HashAfter(msg: seq<Octet>, n: nat): (s: seq<Word>)
    requires 64 * n <= |msg|
    ensures |s| == 8
  {
    if n == 0 then H0 else Compressed(HashAfter(msg, n - 1), Block(msg, n - 1))
  }

  function ToBytes(w: Word): (r: seq<Octet>)
    ensures |r| == 4
  {
    [((w >> 24) & 0xFF) as Octet, ((w >> 16) & 0xFF) as Octet, ((w >> 8) & 0xFF) as Octet, (w & 0xFF) as Octet]
  }

  function DigestOf(h: seq<Word>): (r: seq<Octet>)
    ensures |r| == 4 * |h|
  {
    if h == [] then [] else DigestOf(h[..|h| - 1]) + ToBytes(h[|h| - 1])
  }

  function Sha(data: seq<Octet>): (r: seq<Octet>)
    ensures |r| == 32
  {
    DigestOf(HashAfter(Padded(data), |Padded(data)| / 64))
  }

  // ---- The in-place loops ----

  /** The rotations the program uses are the shifts of the standard. */
  method RotatedBigSigma0(a: Word) returns (s0: Word)
    ensures s0 == BigSigma0(a)
  {
    s0 := a.RotateRight(2) ^ a.RotateRight(13) ^ a.RotateRight(22);
  }

  method RotatedBigSigma1(e: Word) returns (s1: Word)
    ensures s1 == BigSigma1(e)
  {
    s1 := e.RotateRight(6) ^ e.RotateRight(11) ^ e.RotateRight(25);
  }

  method RotatedSmallSigma0(w: Word) returns (s0: Word)
    ensures s0 == SmallSigma0(w)
  {
    s0 := w.RotateRight(7) ^ w.RotateRight(18) ^ (w >> 3);
  }

  method RotatedSmallSigma1(w: Word) returns (s1: Word)
    ensures s1 == SmallSigma1(w)
  {
    s1 := w.RotateRight(17) ^ w.RotateRight(19) ^ (w >> 10);
  }

  /** The next schedule word from those sixteen, fifteen, seven and two places before it. */
  method NextWord(w16: Word, w15: Word, w7: Word, w2: Word) returns (next: Word)
    ensures next == Sum4(w16, SmallSigma0(w15), w7, SmallSigma1(w2))
  {
    var s0 := RotatedSmallSigma0(w15);
    var s1 := RotatedSmallSigma1(w2);
    next := Add(Add(Add(w16, s0), w7), s1);
  }

  /** One round: the eight registers move along, two of them taking in new sums. */
  method Round(a: Word, b: Word, c: Word, d: Word, e: Word, f: Word, g: Word, hh: Word, k: Word, w: Word)
      returns (na: Word, nb: Word, nc: Word, nd: Word, ne: Word, nf: Word, ng: Word, nh: Word)
    ensures Registers(na, nb, nc, nd, ne, nf, ng, nh) == Step(Registers(a, b, c, d, e, f, g, hh), k, w)
  {
    var s1 := RotatedBigSigma1(e);
    var ch := (e & f) ^ (!e & g);
    var t1 := Add(Add(Add(Add(hh, s1), ch), k), w);
    var s0 := RotatedBigSigma0(a);
    var maj := (a & b) ^ (a & c) ^ (b & c);
    var t2 := Add(s0, maj);
    nh := g;
    ng := f;
    nf := e;
    ne := Add(d, t1);
    nd := c;
    nc := b;
    nb := a;
    na := Add(t1, t2);
  }

  /** Fills the schedule: sixteen words from the block, then forty-eight from those before them. */
  method Schedule(block: seq<Octet>, w: array<Word>)
    requires |block| == 64 && w.Length == 64
    modifies w
    ensures forall t :: 0 <= t < 64 ==> w[t] == W(block, t)
  {
    for i := 0 to 16
      invariant forall t :: 0 <= t < i ==> w[t] == W(block, t)
    {
      var j := i * 4;
      w[i] := FromBytes(block[j], block[j + 1], block[j + 2], block[j + 3]);
    }
    for i := 16 to 64
      invariant forall t :: 0 <= t < i ==> w[t] == W(block, t)
    {
      WordStep(block, i, w[i - 16], w[i - 15], w[i - 7], w[i - 2]);
      w[i] := NextWord(w[i - 16], w[i - 15], w[i - 7], w[i - 2]);
    }
  }

  lemma WordStep(block: seq<Octet>, i: nat, w16: Word, w15: Word, w7: Word, w2: Word)
    requires |block| == 64 && i >= 16
    requires w16 == W(block, i - 16) && w15 == W(block, i - 15) && w7 == W(block, i - 7) && w2 == W(block, i - 2)
    ensures W(block, i) == Sum4(w16, SmallSigma0(w15), w7, SmallSigma1(w2))
  {
  }

  /** Sixty-four rounds over eight registers. */
  method RunRounds(start: Registers, block: seq<Octet>, w: array<Word>) returns (end: Registers)
    requires |block| == 64 && w.Length == 64
    requires forall t :: 0 <= t < 64 ==> w[t] == W(block, t)
    ensures end == Rounds(block, start, |block|)
  {
    var a, b, c, d, e, f, g, hh := start.a, start.b, start.c, start.d, start.e, start.f, start.g, start.h;
    for i := 0 to 64
      invariant Registers(a, b, c, d, e, f, g, hh) == Rounds(block, start, i)
    {
      ghost var before := Registers(a, b, c, d, e, f, g, hh);
      a, b, c, d, e, f, g, hh := Round(a, b, c, d, e, f, g, hh, K[i], w[i]);
      RoundsStep(block, start, i, before);
    }
    end := Registers(a, b, c, d, e, f, g, hh);
  }

  lemma RoundsStep(block: seq<Octet>, start: Registers, i: nat, r: Registers)
    requires |block| == 64 && i < 64 && r == Rounds(block, start, i)
    ensures Rounds(block, start, i + 1) == Step(r, K[i], W(block, i))
  {
  }

  method AddAt(h: array<Word>, i: nat, x: Word)
    requires i < h.Length
    modifies h
    ensures h[..] == old(h[..])[i := Add(old(h[i]), x)]
  {
    h[i] := Add(h[i], x);
  }

  /** The registers added onto the hash value in place. */
  method AddInPlace(h: array<Word>, r: Registers)
    requires h.Length == 8
    modifies h
    ensures h[..] == AddTo(old(h[..]), r)
  {
    AddAt(h, 0, r.a);
    AddAt(h, 1, r.b);
    AddAt(h, 2, r.c);
    AddAt(h, 3, r.d);
    AddAt(h, 4, r.e);
    AddAt(h, 5, r.f);
    AddAt(h, 6, r.g);
    AddAt(h, 7, r.h);
  }

  method Compress(h: array<Word>, block: seq<Octet>, w: array<Word>)
    requires h.Length == 8 && |block| == 64 && w.Length == 64 && h != w
    requires forall t :: 0 <= t < 64 ==> w[t] == W(block, t)
    modifies h
    ensures h[..] == Compressed(old(h[..]), block)
  {
    var end := RunRounds(Load(h[..]), block, w);
    AddInPlace(h, end);
  }

  method StartingValue() returns (h: array<Word>)
    ensures fresh(h) && h.Length == 8 && h[..] == H0
  {
    h := new Word[|H0|](i requires 0 <= i < |H0| => H0[i]);
    assert h[..] == H0;
  }

  /** Every block in turn, over one schedule buffer and one hash value. */
  method ProcessBlocks(msg: seq<Octet>, h: array<Word>)
    requires |msg| % 64 == 0 && h.Length == 8 && h[..] == H0
    modifies h
    ensures h[..] == HashAfter(msg, |msg| / 64)
  {
    var w := new Word[64](i => 0);
    for i := 0 to |msg| / 64
      invariant h[..] == HashAfter(msg, i)
    {
      Schedule(Block(msg, i), w);
      Compress(h, Block(msg, i), w);
      HashStep(msg, i);
    }
  }

  /** The program's digest is the standard's. */
  method Hash(data: seq<Octet>) returns (digest: seq<Octet>)
    ensures digest == Sha(data)
  {
    var msg := Pad(data);
    var h := StartingValue();
    ProcessBlocks(msg, h);
    digest := WriteOut(h);
  }

  lemma HashStep(msg: seq<Octet>, i: nat)
    requires 64 * (i + 1) <= |msg|
    ensures HashAfter(msg, i + 1) == Compressed(HashAfter(msg, i), Block(msg, i))
  {
  }

  method CopyInto(out: array<Octet>, at: nat, bytes: seq<Octet>)
    requires at + |bytes| <= out.Length
    modifies out
    ensures out[..at] == old(out[..at]) && out[at..at + |bytes|] == bytes
  {
    for j := 0 to |bytes|
      invariant out[..at] == old(out[..at]) && out[at..at + j] == bytes[..j]
    {
      out[at + j] := bytes[j];
      assert out[at..at + j + 1] == out[at..at + j] + [bytes[j]];
    }
  }

  /** The eight words, big-endian, one after another. */
  method WriteOut(h: array<Word>) returns (digest: seq<Octet>)
    requires h.Length == 8
    ensures digest == DigestOf(h[..])
  {
    var out := new Octet[32](i => 0);
    for i := 0 to 8
      invariant out[..4 * i] == DigestOf(h[..i])
    {
      CopyInto(out, i * 4, ToBytes(h[i]));
      assert h[..i + 1][..i] == h[..i] && h[..i + 1][i] == h[i];
      assert out[..4 * (i + 1)] == out[..4 * i] + out[i * 4..i * 4 + 4];
    }
    assert h[..8] == h[..] && out[..32] == out[..];
    digest := out[..];
  }

  // ---- HMAC (section 2 of RFC 2104) ----

  const BLOCK := 64

  /** The key as one block: hashed if longer, then filled up with zeros. */
  function KeyBlock(key: seq<Octet>): (r: seq<Octet>)
    ensures |r| == BLOCK
  {
    var k := if |key| > BLOCK then Sha(key) else key;
    k + Zeros(BLOCK - |k|)
  }

  function Xored(k: seq<Octet>, mask: Octet): (r: seq<Octet>)
    ensures |r| == |k| && forall i :: 0 <= i < |k| ==> r[i] == k[i] ^ mask
  {
    seq(|k|, i requires 0 <= i < |k| => k[i] ^ mask)
  }

  function HmacOf(key: seq<Octet>, text: seq<Octet>): seq<Octet> {
    Sha(Xored(KeyBlock(key), 0x5C) + Sha(Xored(KeyBlock(key), 0x36) + text))
  }

  method Hmac(key: seq<Octet>, data: seq<Octet>) returns (tag: seq<Octet>)
    ensures tag == HmacOf(key, data)
  {
    var k := key;
    if |key| > BLOCK {
      k := Hash(key);
    }
    k := k + Zeros(BLOCK - |k|);
    assert k == KeyBlock(key);
    var ipad, opad := FillPads(k);
    var inner := Hash(ipad[..] + data);
    tag := Hash(opad[..] + inner);
  }

  /** Both pads in one loop over the key block. */
  method FillPads(k: seq<Octet>) returns (ipad: array<Octet>, opad: array<Octet>)
    requires |k| == BLOCK
    ensures ipad[..] == Xored(k, 0x36) && opad[..] == Xored(k, 0x5C)
  {
    ipad, opad := new Octet[BLOCK](i => 0), new Octet[BLOCK](i => 0);
    for i := 0 to BLOCK
      invariant ipad[..i] == Xored(k, 0x36)[..i] && opad[..i] == Xored(k, 0x5C)[..i]
    {
      ipad[i] := k[i] ^ 0x36;
      opad[i] := k[i] ^ 0x5C;
      assert ipad[..i + 1] == ipad[..i] + [k[i] ^ 0x36] && opad[..i + 1] == opad[..i] + [k[i] ^ 0x5C];
    }
    assert ipad[..] == ipad[..BLOCK] && opad[..] == opad[..BLOCK];
  }

  /** A short key and the same key with zeros behind it, up to a block, make the same tags. */
  lemma ZeroPaddedKeyIsSame(key: seq<Octet>, n: nat, text: seq<Octet>)
    requires |key| + n <= BLOCK
    ensures HmacOf(key + Zeros(n), text) == HmacOf(key, text)
  {
    assert KeyBlock(key + Zeros(n)) == KeyBlock(key);
  }

  /** A long key stands for its digest. */
  lemma LongKeyIsItsDigest(key: seq<Octet>, text: seq<Octet>)
    requires |key| > BLOCK
    ensures HmacOf(key, text) == HmacOf(Sha(key), text)
  {
  }

  // ---- Comparison ----

  function ByteOr(s: seq<Octet>, i: nat): Octet {
    if i < |s| then s[i] else 0
  }

  /** Lengths congruent modulo 256, and equal bytes, those past an end counting as zero. */
  ghost predicate Accepted(a: seq<Octet>, b: seq<Octet>) {
    |a| % 256 == |b| % 256 && forall i :: 0 <= i < |a| || 0 <= i < |b| ==> ByteOr(a, i) == ByteOr(b, i)
  }

  /** Zero bytes, a multiple of 256 of them, behind the shorter one. */
  predicate ZeroExtends(longer: seq<Octet>, shorter: seq<Octet>) {
    var n := |longer| - |shorter|;
    n >= 0 && n % 256 == 0 && longer == shorter + Zeros(n)
  }

  lemma AcceptedLonger(longer: seq<Octet>, shorter: seq<Octet>)
    requires |longer| >= |shorter|
    ensures Accepted(longer, shorter) <==> ZeroExtends(longer, shorter)
  {
    var n := |longer| - |shorter|;
    var extended := shorter + Zeros(n);
    assert |longer| % 256 == |shorter| % 256 <==> n % 256 == 0;
    assert forall i :: 0 <= i < |longer| ==> ByteOr(longer, i) == longer[i] && ByteOr(shorter, i) == extended[i];
    if Accepted(longer, shorter) {
      forall i | 0 <= i < |longer|
        ensures longer[i] == extended[i]
      {
        assert ByteOr(longer, i) == ByteOr(shorter, i);
      }
      assert longer == extended;
    }
  }

  /** Accepted exactly when one is the other with a multiple of 256 zero bytes behind it. */
  lemma AcceptedExactly(a: seq<Octet>, b: seq<Octet>)
    ensures Accepted(a, b) <==> ZeroExtends(a, b) || ZeroExtends(b, a)
  {
    if |a| >= |b| {
      AcceptedLonger(a, b);
    } else {
      AcceptedLonger(b, a);
      assert Accepted(a, b) <==> Accepted(b, a);
    }
  }

  /** So inputs of one length, or of lengths that differ by no multiple of 256, are accepted exactly when equal … */
  lemma AcceptedIsEqualUnless(a: seq<Octet>, b: seq<Octet>)
    requires |a| == |b| || |a| % 256 != |b| % 256
    ensures Accepted(a, b) <==> a == b
  {
    AcceptedExactly(a, b);
    assert |a| == |b| ==> a + Zeros(0) == a && b + Zeros(0) == b;
  }

  /** … and at every other difference in length there are unequal inputs that are accepted. */
  lemma UnequalAccepted(a: seq<Octet>, n: nat)
    requires n > 0 && n % 256 == 0
    ensures a != a + Zeros(n) && Accepted(a, a + Zeros(n))
  {
    AcceptedExactly(a, a + Zeros(n));
    assert |a + Zeros(n)| == |a| + n;
  }

  /** Scans every byte of the longer input; the length difference is folded in after truncation to a byte. */
  method ConstantTimeEq(a: seq<Octet>, b: seq<Octet>) returns (eq: bool)
    ensures eq <==> Accepted(a, b)
  {
    var diff: Octet := LowByte(|a|) ^ LowByte(|b|);
    XorZero(LowByte(|a|), LowByte(|b|));
    LowByteIsResidue(|a|, |b|);
    var n := if |a| >= |b| then |a| else |b|;
    for i := 0 to n
      invariant diff == 0 <==> |a| % 256 == |b| % 256 && forall j :: 0 <= j < i ==> ByteOr(a, j) == ByteOr(b, j)
    {
      var x, y := ByteOr(a, i), ByteOr(b, i);
      OrKeepsDifference(diff, x, y);
      diff := diff | (x ^ y);
    }
    eq := diff == 0;
  }

  lemma OrKeepsDifference(diff: Octet, x: Octet, y: Octet)
    ensures diff | (x ^ y) == 0 <==> diff == 0 && x == y
  {
  }

  /** Eight bits, the lowest first. */
  datatype Bits = Bits(b0: bool, b1: bool, b2: bool, b3: bool, b4: bool, b5: bool, b6: bool, b7: bool)

  function OfBits(x: Bits): Octet {
    var low: Octet := (if x.b0 then 1 else 0) | (if x.b1 then 2 else 0) | (if x.b2 then 4 else 0) | (if x.b3 then 8 else 0);
    low | (if x.b4 then 16 else 0) | (if x.b5 then 32 else 0) | (if x.b6 then 64 else 0) | (if x.b7 then 128 else 0)
  }

  function Sum(x: Bits): nat {
    var low := (if x.b0 then 1 else 0) + (if x.b1 then 2 else 0) + (if x.b2 then 4 else 0) + (if x.b3 then 8 else 0);
    low + (if x.b4 then 16 else 0) + (if x.b5 then 32 else 0) + (if x.b6 then 64 else 0) + (if x.b7 then 128 else 0)
  }

  predicate Bit(n: nat, k: nat)
    requires k > 0
  {
    n / k % 2 == 1
  }

  function LowBits(n: nat): Bits {
    Bits(Bit(n, 1), Bit(n, 2), Bit(n, 4), Bit(n, 8), Bit(n, 16), Bit(n, 32), Bit(n, 64), Bit(n, 128))
  }

  /** What is left of a length after truncation to a byte. */
  function LowByte(n: nat): Octet {
    OfBits(LowBits(n))
  }

  lemma OfBitsIsInjective(x: Bits, y: Bits)
    requires OfBits(x) == OfBits(y)
    ensures x == y
  {
  }

  lemma SumIsInjective(x: Bits, y: Bits)
    requires Sum(x) == Sum(y)
    ensures x == y
  {
  }

  function Part(b: bool, k: nat): nat {
    if b then k else 0
  }

  /** A residue modulo `2k` is the residue modulo `k` with the next bit in front. */
  lemma Halve(n: nat, k: nat)
    requires k > 0
    ensures n % (2 * k) == n % k + Part(Bit(n, k), k)
  {
    var q, r := n / k, n % k;
    var h, b := q / 2, q % 2;
    assert n == k * q + r;
    assert k * q == 2 * k * h + k * b by {
      assert q == 2 * h + b;
    }
    UniqueResidue(n, 2 * k, h, k * b + r);
  }

  lemma UniqueResidue(n: nat, m: nat, q: nat, r: nat)
    requires m > 0 && n == m * q + r && r < m
    ensures n % m == r
  {
    var d := n / m - q;
    assert m * d == r - n % m by {
      assert n == m * (n / m) + n % m;
      assert m * (n / m) - m * q == m * d;
    }
    MultipleIsFar(m, d);
  }

  lemma MultipleIsFar(m: nat, d: int)
    ensures d >= 1 ==> m * d >= m
    ensures d <= -1 ==> m * d + m <= 0
  {
    if d >= 1 {
      assert m * d == m * (d - 1) + m;
    } else if d <= -1 {
      assert m * d + m == m * (d + 1);
    }
  }

  lemma PartsAddUp(x: Bits, r2: nat, r4: nat, r8: nat, r16: nat, r32: nat, r64: nat, r128: nat, r256: nat)
    requires r2 == Part(x.b0, 1) && r4 == r2 + Part(x.b1, 2) && r8 == r4 + Part(x.b2, 4) && r16 == r8 + Part(x.b3, 8)
    requires r32 == r16 + Part(x.b4, 16) && r64 == r32 + Part(x.b5, 32) && r128 == r64 + Part(x.b6, 64) && r256 == r128 + Part(x.b7, 128)
    ensures Sum(x) == r256
  {
  }

  lemma SumOfLowBits(n: nat)
    ensures Sum(LowBits(n)) == n % 256
  {
    Halve(n, 1);
    Halve(n, 2);
    Halve(n, 4);
    Halve(n, 8);
    Halve(n, 16);
    Halve(n, 32);
    Halve(n, 64);
    Halve(n, 128);
    PartsAddUp(LowBits(n), n % 2, n % 4, n % 8, n % 16, n % 32, n % 64, n % 128, n % 256);
  }

  /** Truncated lengths agree exactly when the lengths are congruent modulo 256. */
  lemma LowByteIsResidue(m: nat, n: nat)
    ensures LowByte(m) == LowByte(n) <==> m % 256 == n % 256
  {
    SumOfLowBits(m);
    SumOfLowBits(n);
    if LowByte(m) == LowByte(n) {
      OfBitsIsInjective(LowBits(m), LowBits(n));
    } else if m % 256 == n % 256 {
      SumIsInjective(LowBits(m), LowBits(n));
    }
  }

  lemma XorZero(x: Octet, y: Octet)
    ensures x ^ y == 0 <==> x == y
  {
  }
}
