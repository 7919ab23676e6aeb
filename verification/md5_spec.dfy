/**
 MD5 as sections 3.1 to 3.5 of RFC 1321 define it: padding, length, the four rounds over each
 16-word block, and the output.
 */
module Md5Spec {
  import opened Words

  datatype State = State(a: word, b: word, c: word, d: word)

  /** Section 3.3. */
  const INITIAL := State(0x67452301, 0xefcdab89, 0x98badcfe, 0x10325476)

  // ---------------------------------------------------------------- section 3.4: one step

  function F(x: word, y: word, z: word): word { (x & y) | (!x & z) }
  function G(x: word, y: word, z: word): word { (x & z) | (y & !z) }
  function H(x: word, y: word, z: word): word { x ^ y ^ z }
  function I(x: word, y: word, z: word): word { y ^ (x | !z) }

  function Mixed(i: nat, x: word, y: word, z: word): word {
    if i < 16 then F(x, y, z) else if i < 32 then G(x, y, z) else if i < 48 then H(x, y, z) else I(x, y, z)
  }

  /** Which word of the block step i adds. */
  function Index(i: nat): (k: nat)
    ensures k < 16
  {
    if i < 16 then i else if i < 32 then (5 * i + 1) % 16 else if i < 48 then (3 * i + 5) % 16 else (7 * i) % 16
  }

  /** By how many bits step i rotates. */
  function Turn(i: nat): (s: nat)
    ensures 0 < s < 32
  {
    match (i / 16, i % 4)
    case (0, 0) => 7
    case (0, 1) => 12
    case (0, 2) => 17
    case (0, _) => 22
    case (1, 0) => 5
    case (1, 1) => 9
    case (1, 2) => 14
    case (1, _) => 20
    case (2, 0) => 4
    case (2, 1) => 11
    case (2, 2) => 16
    case (2, _) => 23
    case (_, 0) => 6
    case (_, 1) => 10
    case (_, 2) => 15
    case _ => 21
  }

  /** The integer part of 4294967296 times abs(sin(i + 1)), i + 1 in radians. */
  function Sine(i: nat): word {
    if i < 16 then Sine1(i) else if i < 32 then Sine2(i) else if i < 48 then Sine3(i) else Sine4(i)
  }

  function Sine1(i: nat): word {
    match i
    case 0 => 0xd76aa478
    case 1 => 0xe8c7b756
    case 2 => 0x242070db
    case 3 => 0xc1bdceee
    case 4 => 0xf57c0faf
    case 5 => 0x4787c62a
    case 6 => 0xa8304613
    case 7 => 0xfd469501
    case 8 => 0x698098d8
    case 9 => 0x8b44f7af
    case 10 => 0xffff5bb1
    case 11 => 0x895cd7be
    case 12 => 0x6b901122
    case 13 => 0xfd987193
    case 14 => 0xa679438e
    case _ => 0x49b40821
  }

  function Sine2(i: nat): word {
    match i
    case 16 => 0xf61e2562
    case 17 => 0xc040b340
    case 18 => 0x265e5a51
    case 19 => 0xe9b6c7aa
    case 20 => 0xd62f105d
    case 21 => 0x02441453
    case 22 => 0xd8a1e681
    case 23 => 0xe7d3fbc8
    case 24 => 0x21e1cde6
    case 25 => 0xc33707d6
    case 26 => 0xf4d50d87
    case 27 => 0x455a14ed
    case 28 => 0xa9e3e905
    case 29 => 0xfcefa3f8
    case 30 => 0x676f02d9
    case _ => 0x8d2a4c8a
  }

  function Sine3(i: nat): word {
    match i
    case 32 => 0xfffa3942
    case 33 => 0x8771f681
    case 34 => 0x6d9d6122
    case 35 => 0xfde5380c
    case 36 => 0xa4beea44
    case 37 => 0x4bdecfa9
    case 38 => 0xf6bb4b60
    case 39 => 0xbebfbc70
    case 40 => 0x289b7ec6
    case 41 => 0xeaa127fa
    case 42 => 0xd4ef3085
    case 43 => 0x04881d05
    case 44 => 0xd9d4d039
    case 45 => 0xe6db99e5
    case 46 => 0x1fa27cf8
    case _ => 0xc4ac5665
  }

  function Sine4(i: nat): word {
    match i
    case 48 => 0xf4292244
    case 49 => 0x432aff97
    case 50 => 0xab9423a7
    case 51 => 0xfc93a039
    case 52 => 0x655b59c3
    case 53 => 0x8f0ccc92
    case 54 => 0xffeff47d
    case 55 => 0x85845dd1
    case 56 => 0x6fa87e4f
    case 57 => 0xfe2ce6e0
    case 58 => 0xa3014314
    case 59 => 0x4e0811a1
    case 60 => 0xf7537e82
    case 61 => 0xbd3af235
    case 62 => 0x2ad7d2bb
    case _ => 0xeb86d391
  }

  type Block = x: seq<word> | |x| == 16 witness seq(16, _ => 0)

  /** a = b + ((a + f(b, c, d) + X[k] + T[i]) <<< s), and the registers move on by one. */
  function Step(s: State, x: Block, i: nat): State {
    var f := Mixed(i, s.b, s.c, s.d);
    State(s.d, Sum(s.b, Rotated(Sum(Sum(Sum(s.a, f), x[Index(i)]), Sine(i)), Turn(i))), s.b, s.c)
  }

  function Steps(s: State, x: Block, n: nat): State {
    if n == 0 then s else Step(Steps(s, x, n - 1), x, n - 1)
  }

  /** All 64 steps, and the sums with the registers before. */
  function Compress(s: State, x: Block): State {
    var t := Steps(s, x, 64);
    State(Sum(t.a, s.a), Sum(t.b, s.b), Sum(t.c, s.c), Sum(t.d, s.d))
  }

  // ---------------------------------------------------------------- bytes

  function BlockAt(m: seq<byte>): Block
    requires |m| >= 64
  {
    seq(16, k requires 0 <= k < 16 => WordAt(m, 4 * k))
  }

  function WordBytes(w: word): (s: seq<byte>)
    ensures |s| == 4
  {
    [(w & 0xff) as byte, ((w >> 8) & 0xff) as byte, ((w >> 16) & 0xff) as byte, ((w >> 24) & 0xff) as byte]
  }

  // ---------------------------------------------------------------- the whole message

  /** Every whole block of m in turn; a shorter rest is not looked at. */
  function Chain(s: State, m: seq<byte>): State
    decreases |m|
  {
    if |m| < 64 then s else Chain(Compress(s, BlockAt(m[..64])), m[64..])
  }

  function Zeros(n: nat): seq<byte> {
    seq(n, _ => 0)
  }

  /** n as k bytes, the low-order one first; what does not fit is dropped. */
  function LowFirst(n: nat, k: nat): (s: seq<byte>)
    ensures |s| == k
  {
    if k == 0 then [] else [(n % 256) as byte] + LowFirst(n / 256, k - 1)
  }

  /** How many zeros follow the one bit of a message of n bytes. */
  function Gap(n: nat): nat {
    (55 - n) % 64
  }

  /** Sections 3.1 and 3.2: a one bit, zeros up to 56 modulo 64, the length in bits modulo 2^64. */
  function Padded(m: seq<byte>): seq<byte> {
    m + [0x80] + Zeros(Gap(|m|)) + LowFirst(8 * |m|, 8)
  }

  /** Section 3.5. */
  function Output(s: State): seq<byte> {
    WordBytes(s.a) + WordBytes(s.b) + WordBytes(s.c) + WordBytes(s.d)
  }

  function Md5(m: seq<byte>): seq<byte> {
    Output(Chain(INITIAL, Padded(m)))
  }

  // ---------------------------------------------------------------- blocks

  /** Blocks can be processed in portions. */
  lemma {:induction false} ChainConcat(s: State, x: seq<byte>, y: seq<byte>)
    requires |x| % 64 == 0
    ensures Chain(s, x + y) == Chain(Chain(s, x), y)
    decreases |x|
  {
    hide Compress, BlockAt;
    if x == [] {
      assert x + y == y;
    } else {
      assert (x + y)[..64] == x[..64] && (x + y)[64..] == x[64..] + y;
      ChainConcat(Compress(s, BlockAt(x[..64])), x[64..], y);
    }
  }

  /** Chain ignores the bytes behind the last whole block. */
  lemma ChainWhole(s: State, m: seq<byte>)
    ensures Chain(s, m) == Chain(s, m[..|m| - |m| % 64])
  {
    var w := |m| - |m| % 64;
    assert m == m[..w] + m[w..];
    ChainConcat(s, m[..w], m[w..]);
  }
}
