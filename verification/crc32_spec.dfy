/** CRC-32 of section 8 of RFC 1952, and the tables and loops of common/hashkit/nc_crc32.c. */
module Crc32Spec {
  import opened Words

  // ---------------------------------------------------------------- division, bit by bit

  function Odd(x: word): bool { x & 1 == 1 }

  function Half(x: word): word { x >> 1 }

  /** One step of the division by the polynomial 0xedb88320, low-order bit first. */
  function Bit(c: word): word {
    if Odd(c) then Xor(0xedb8_8320, Half(c)) else Half(c)
  }

  function Eight(c: word): word {
    Bit(Bit(Bit(Bit(Bit(Bit(Bit(Bit(c))))))))
  }

  /** The register after the bytes of m. */
  function Divided(c: word, m: seq<byte>): word
    decreases |m|
  {
    if m == [] then c else Divided(Eight(Xor(c, m[0] as word)), m[1..])
  }

  /** The register starts with all ones and is inverted at the end. */
  function Crc32(m: seq<byte>): word {
    Xor(Divided(0xffff_ffff, m), 0xffff_ffff)
  }

  // ---------------------------------------------------------------- a step is linear

  lemma OddRaw(x: word, y: word)
    ensures ((x ^ y) & 1 == 1) <==> ((x & 1 == 1) != (y & 1 == 1))
  {
  }

  lemma HalfRaw(x: word, y: word)
    ensures (x ^ y) >> 1 == (x >> 1) ^ (y >> 1)
  {
  }

  lemma OddXor(x: word, y: word)
    ensures Odd(Xor(x, y)) <==> Odd(x) != Odd(y)
  {
    OddRaw(x, y);
  }

  lemma HalfXor(x: word, y: word)
    ensures Half(Xor(x, y)) == Xor(Half(x), Half(y))
  {
    HalfRaw(x, y);
  }

  lemma BitXor(x: word, y: word)
    ensures Bit(Xor(x, y)) == Xor(Bit(x), Bit(y))
  {
    hide Xor, Odd, Half;
    var p, a, b := 0xedb8_8320, Half(x), Half(y);
    OddXor(x, y);
    HalfXor(x, y);
    XorIs(p, a, b);
    XorIs(a, p, b);
    XorIs(a, b, p);
    XorIs(p, Xor(a, b), a);
    XorIs(p, a, Xor(p, b));
    XorIs(p, b, a);
  }

  /** Eight steps on a sum are the sum of eight steps. */
  lemma EightXor(x: word, y: word)
    ensures Eight(Xor(x, y)) == Xor(Eight(x), Eight(y))
  {
    hide Xor, Bit;
    var x1, y1 := Bit(x), Bit(y);
    var x2, y2 := Bit(x1), Bit(y1);
    var x3, y3 := Bit(x2), Bit(y2);
    var x4, y4 := Bit(x3), Bit(y3);
    var x5, y5 := Bit(x4), Bit(y4);
    var x6, y6 := Bit(x5), Bit(y5);
    var x7, y7 := Bit(x6), Bit(y6);
    BitXor(x, y);
    BitXor(x1, y1);
    BitXor(x2, y2);
    BitXor(x3, y3);
    BitXor(x4, y4);
    BitXor(x5, y5);
    BitXor(x6, y6);
    BitXor(x7, y7);
  }

  // ---------------------------------------------------------------- eight bits at once

  lemma ClearRaw(x: word)
    ensures x & 0xff == 0 ==> x & 1 != 1 && (x >> 1) & 1 != 1 && (x >> 2) & 1 != 1 && (x >> 3) & 1 != 1
                              && (x >> 4) & 1 != 1 && (x >> 5) & 1 != 1 && (x >> 6) & 1 != 1 && (x >> 7) & 1 != 1
  {
  }

  lemma HalvesRaw(x: word)
    ensures (x >> 1) >> 1 == x >> 2 && (x >> 2) >> 1 == x >> 3 && (x >> 3) >> 1 == x >> 4 && (x >> 4) >> 1 == x >> 5
    ensures (x >> 5) >> 1 == x >> 6 && (x >> 6) >> 1 == x >> 7 && (x >> 7) >> 1 == x >> 8
  {
  }

  /** With eight zeros in front nothing is subtracted. */
  lemma EightClear(x: word)
    requires x & 0xff == 0
    ensures Eight(x) == x >> 8
  {
    hide Xor;
    ClearRaw(x);
    HalvesRaw(x);
  }

  lemma SplitRaw(c: word, b: word)
    ensures c ^ b == ((c ^ b) & 0xff) ^ ((c ^ b) & 0xffff_ff00)
    ensures ((c ^ b) & 0xffff_ff00) & 0xff == 0
    ensures b < 256 ==> ((c ^ b) & 0xffff_ff00) >> 8 == c >> 8
    ensures (c ^ b) & 0xff < 256
  {
  }

  /** What the table-driven loops rest on. */
  lemma ByteAtOnce(c: word, b: word)
    requires b < 256
    ensures Eight(Xor(c, b)) == Xor(Eight((c ^ b) & 0xff), c >> 8)
  {
    hide Eight;
    SplitRaw(c, b);
    var x := c ^ b;
    EightXor(x & 0xff, x & 0xffff_ff00);
    EightClear(x & 0xffff_ff00);
  }
}
