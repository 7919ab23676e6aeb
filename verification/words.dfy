/** 32-bit words, as the hash functions use them. */
module Words {
  type byte = bv8
  type word = bv32

  /** Addition modulo 2^32. */
  function Sum(x: word, y: word): word { x + y }

  /** The s high-order bits of y behind the 32 - s low-order bits of x. */
  function Joined(x: word, y: word, s: nat): word
    requires 0 < s < 32
  {
    (x << s) | (y >> (32 - s))
  }

  /** x <<< s. */
  function Rotated(x: word, s: nat): word
    requires 0 < s < 32
  {
    Joined(x, x, s)
  }

  /** Rotated turns to the left, by every amount from 1 to 31. */
  lemma RotatesLeft(x: word)
    ensures Rotated(x, 1) == x.RotateLeft(1) && Rotated(x, 2) == x.RotateLeft(2) && Rotated(x, 3) == x.RotateLeft(3) && Rotated(x, 4) == x.RotateLeft(4)
    ensures Rotated(x, 5) == x.RotateLeft(5) && Rotated(x, 6) == x.RotateLeft(6) && Rotated(x, 7) == x.RotateLeft(7) && Rotated(x, 8) == x.RotateLeft(8)
    ensures Rotated(x, 9) == x.RotateLeft(9) && Rotated(x, 10) == x.RotateLeft(10) && Rotated(x, 11) == x.RotateLeft(11) && Rotated(x, 12) == x.RotateLeft(12)
    ensures Rotated(x, 13) == x.RotateLeft(13) && Rotated(x, 14) == x.RotateLeft(14) && Rotated(x, 15) == x.RotateLeft(15) && Rotated(x, 16) == x.RotateLeft(16)
    ensures Rotated(x, 17) == x.RotateLeft(17) && Rotated(x, 18) == x.RotateLeft(18) && Rotated(x, 19) == x.RotateLeft(19) && Rotated(x, 20) == x.RotateLeft(20)
    ensures Rotated(x, 21) == x.RotateLeft(21) && Rotated(x, 22) == x.RotateLeft(22) && Rotated(x, 23) == x.RotateLeft(23) && Rotated(x, 24) == x.RotateLeft(24)
    ensures Rotated(x, 25) == x.RotateLeft(25) && Rotated(x, 26) == x.RotateLeft(26) && Rotated(x, 27) == x.RotateLeft(27) && Rotated(x, 28) == x.RotateLeft(28)
    ensures Rotated(x, 29) == x.RotateLeft(29) && Rotated(x, 30) == x.RotateLeft(30) && Rotated(x, 31) == x.RotateLeft(31)
  {
  }

  /** Four bytes, the low-order one first. */
  function Le(b0: byte, b1: byte, b2: byte, b3: byte): word {
    (b0 as word) | ((b1 as word) << 8) | ((b2 as word) << 16) | ((b3 as word) << 24)
  }

  function WordAt(m: seq<byte>, i: nat): word
    requires i + 4 <= |m|
  {
    Le(m[i], m[i + 1], m[i + 2], m[i + 3])
  }

  lemma SumIs(x: word, y: word, z: word)
    ensures Sum(Sum(x, y), z) == Sum(x, Sum(y, z)) && Sum(x, y) == Sum(y, x)
  {
    Commutes(x, y);
    Associates(x, y, z);
  }

  lemma Commutes(x: word, y: word)
    ensures x + y == y + x
  {
  }

  lemma Associates(x: word, y: word, z: word)
    ensures (x + y) + z == x + (y + z)
  {
  }

  function Xor(x: word, y: word): word { x ^ y }

  lemma XorRaw(x: word, y: word, z: word)
    ensures (x ^ y) ^ z == x ^ (y ^ z) && x ^ y == y ^ x && x ^ (x ^ y) == y
  {
  }

  lemma XorIs(x: word, y: word, z: word)
    ensures Xor(Xor(x, y), z) == Xor(x, Xor(y, z)) && Xor(x, y) == Xor(y, x) && Xor(x, Xor(x, y)) == y
  {
    XorRaw(x, y, z);
  }

  /** A char of the key, which is signed, as an unsigned word. */
  function Char(b: byte): word {
    if b & 0x80 != 0 then (b as word) | 0xffff_ff00 else b as word
  }
}
