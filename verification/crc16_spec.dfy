/** The 16-bit CRC with polynomial 0x1021, high-order bit first, starting from zero. */
module Crc16Spec {
  import opened Words

  type short = bv16

  // ---------------------------------------------------------------- division, bit by bit

  function Add(x: short, y: short): short { x ^ y }

  function Top(x: short): bool { x & 0x8000 == 0x8000 }

  function Twice(x: short): short { x << 1 }

  /** One step of the division. */
  function Bit(c: short): short {
    if Top(c) then Add(0x1021, Twice(c)) else Twice(c)
  }

  function Eight(c: short): short {
    Bit(Bit(Bit(Bit(Bit(Bit(Bit(Bit(c))))))))
  }

  /** A byte as the high-order half. */
  function High(b: short): short { b << 8 }

  function Divided(c: short, m: seq<byte>): short
    decreases |m|
  {
    if m == [] then c else Divided(Eight(Add(c, High(m[0] as short))), m[1..])
  }

  function Crc16(m: seq<byte>): short {
    Divided(0, m)
  }

  // ---------------------------------------------------------------- a step is linear

  lemma TopRaw(x: short, y: short)
    ensures ((x ^ y) & 0x8000 == 0x8000) <==> ((x & 0x8000 == 0x8000) != (y & 0x8000 == 0x8000))
  {
  }

  lemma TwiceRaw(x: short, y: short)
    ensures (x ^ y) << 1 == (x << 1) ^ (y << 1)
  {
  }

  lemma AddRaw(x: short, y: short, z: short)
    ensures (x ^ y) ^ z == x ^ (y ^ z) && x ^ y == y ^ x && x ^ (x ^ y) == y
  {
  }

  lemma TopAdd(x: short, y: short)
    ensures Top(Add(x, y)) <==> Top(x) != Top(y)
  {
    TopRaw(x, y);
  }

  lemma TwiceAdd(x: short, y: short)
    ensures Twice(Add(x, y)) == Add(Twice(x), Twice(y))
  {
    TwiceRaw(x, y);
  }

  lemma AddIs(x: short, y: short, z: short)
    ensures Add(Add(x, y), z) == Add(x, Add(y, z)) && Add(x, y) == Add(y, x) && Add(x, Add(x, y)) == y
  {
    AddRaw(x, y, z);
  }

  lemma BitAdd(x: short, y: short)
    ensures Bit(Add(x, y)) == Add(Bit(x), Bit(y))
  {
    hide Add, Top, Twice;
    var p, a, b := 0x1021, Twice(x), Twice(y);
    TopAdd(x, y);
    TwiceAdd(x, y);
    AddIs(p, a, b);
    AddIs(a, p, b);
    AddIs(a, b, p);
    AddIs(p, Add(a, b), a);
    AddIs(p, a, Add(p, b));
    AddIs(p, b, a);
  }

  /** Eight steps on a sum are the sum of eight steps. */
  lemma EightAdd(x: short, y: short)
    ensures Eight(Add(x, y)) == Add(Eight(x), Eight(y))
  {
    hide Add, Bit;
    var x1, y1 := Bit(x), Bit(y);
    var x2, y2 := Bit(x1), Bit(y1);
    var x3, y3 := Bit(x2), Bit(y2);
    var x4, y4 := Bit(x3), Bit(y3);
    var x5, y5 := Bit(x4), Bit(y4);
    var x6, y6 := Bit(x5), Bit(y5);
    var x7, y7 := Bit(x6), Bit(y6);
    BitAdd(x, y);
    BitAdd(x1, y1);
    BitAdd(x2, y2);
    BitAdd(x3, y3);
    BitAdd(x4, y4);
    BitAdd(x5, y5);
    BitAdd(x6, y6);
    BitAdd(x7, y7);
  }

  // ---------------------------------------------------------------- eight bits at once

  lemma ClearRaw(x: short)
    ensures x & 0xff00 == 0 ==> x & 0x8000 != 0x8000 && (x << 1) & 0x8000 != 0x8000 && (x << 2) & 0x8000 != 0x8000
                                && (x << 3) & 0x8000 != 0x8000 && (x << 4) & 0x8000 != 0x8000 && (x << 5) & 0x8000 != 0x8000
                                && (x << 6) & 0x8000 != 0x8000 && (x << 7) & 0x8000 != 0x8000
  {
  }

  lemma TwicesRaw(x: short)
    ensures (x << 1) << 1 == x << 2 && (x << 2) << 1 == x << 3 && (x << 3) << 1 == x << 4 && (x << 4) << 1 == x << 5
    ensures (x << 5) << 1 == x << 6 && (x << 6) << 1 == x << 7 && (x << 7) << 1 == x << 8
  {
  }

  lemma EightClear(x: short)
    requires x & 0xff00 == 0
    ensures Eight(x) == x << 8
  {
    hide Add;
    ClearRaw(x);
    TwicesRaw(x);
  }

  lemma SplitRaw(c: short, b: short)
    ensures b < 256 ==> c ^ (b << 8) == (((c >> 8) ^ b) << 8) ^ (c & 0xff)
    ensures (c & 0xff) & 0xff00 == 0
    ensures (c & 0xff) << 8 == c << 8
  {
  }

  /** What the table-driven loop rests on. */
  lemma ByteAtOnce(c: short, b: short)
    requires b < 256
    ensures Eight(Add(c, High(b))) == Add(Eight(High((c >> 8) ^ b)), c << 8)
  {
    hide Eight;
    SplitRaw(c, b);
    EightAdd(((c >> 8) ^ b) << 8, c & 0xff);
    EightClear(c & 0xff);
  }
}
