/**
 hash_jenkins in its own form: three ways through the key, by words, half words or bytes, as the
 address allows, over a memory that goes on behind the key. Each is proved to compute Jenkins of the
 key's bytes, so they agree and nothing behind the key matters.
 */
module JenkinsHash {
  import opened Words
  import opened JenkinsSpec

  type Memory = nat -> byte

  function Bytes(mem: Memory, k: nat, n: nat): (m: seq<byte>)
    ensures |m| == n
  {
    seq(n, i requires 0 <= i < n => mem(k + i))
  }

  /** A byte of the key, or zero behind its end. */
  function Key(mem: Memory, k: nat, n: nat, i: nat): byte {
    if i < n then mem(k + i) else 0
  }

  /** Four bytes of the key, filled up with zeros. */
  function KeyWord(mem: Memory, k: nat, n: nat, i: nat): word {
    Le(Key(mem, k, n, i), Key(mem, k, n, i + 1), Key(mem, k, n, i + 2), Key(mem, k, n, i + 3))
  }

  function AddKey(s: Abc, mem: Memory, k: nat, n: nat): Abc {
    Abc(Sum(s.a, KeyWord(mem, k, n, 0)), Sum(s.b, KeyWord(mem, k, n, 4)), Sum(s.c, KeyWord(mem, k, n, 8)))
  }

  lemma AddKeyIs(s: Abc, mem: Memory, k: nat, n: nat)
    ensures n <= 12 ==> AddIn(s, Padded(Bytes(mem, k, n))) == AddKey(s, mem, k, n)
    ensures n >= 12 ==> AddIn(s, Bytes(mem, k, n)[..12]) == AddKey(s, mem, k, 12)
  {
    hide Le, Sum;
    if n <= 12 {
      assert forall i | 0 <= i < 12 :: Padded(Bytes(mem, k, n))[i] == Key(mem, k, n, i);
    }
    if n >= 12 {
      assert forall i | 0 <= i < 12 :: Bytes(mem, k, n)[..12][i] == Key(mem, k, 12, i);
    }
  }

  lemma BytesOn(mem: Memory, k: nat, n: nat)
    requires n >= 12
    ensures Bytes(mem, k, n)[12..] == Bytes(mem, k + 12, n - 12)
  {
  }

  // ---------------------------------------------------------------- reads

  /** A 32-bit load on a little-endian machine; it must be aligned and touch the key. */
  function Load32(mem: Memory, p: nat, ghost end: nat): word
    requires p % 4 == 0 && p < end
  {
    Le(mem(p), mem(p + 1), mem(p + 2), mem(p + 3))
  }

  function Half(b0: byte, b1: byte): word {
    (b0 as word) | ((b1 as word) << 8)
  }

  /** A 16-bit load, all of it inside the key. */
  function Load16(mem: Memory, p: nat, ghost end: nat): word
    requires p % 2 == 0 && p + 2 <= end
  {
    Half(mem(p), mem(p + 1))
  }

  function Load8(mem: Memory, p: nat, ghost end: nat): word
    requires p < end
  {
    mem(p) as word
  }

  function Up(x: word, s: nat): word
    requires s < 32
  {
    x << s
  }

  function Mask(x: word, m: word): word { x & m }

  lemma Mask3(b0: byte, b1: byte, b2: byte, b3: byte)
    ensures Mask(Le(b0, b1, b2, b3), 0xff_ffff) == Le(b0, b1, b2, 0)
  {
  }

  lemma Mask2(b0: byte, b1: byte, b2: byte, b3: byte)
    ensures Mask(Le(b0, b1, b2, b3), 0xffff) == Le(b0, b1, 0, 0)
  {
  }

  lemma Mask1(b0: byte, b1: byte, b2: byte, b3: byte)
    ensures Mask(Le(b0, b1, b2, b3), 0xff) == Le(b0, 0, 0, 0)
  {
  }

  /** Two words without a bit in common. */
  predicate Apart(x: word, y: word) { x & y == 0 }

  function Or(x: word, y: word): word { x | y }

  lemma ApartRaw(x: word, y: word)
    requires x & y == 0
    ensures x + y == x | y
  {
  }

  lemma SumOr(x: word, y: word)
    requires Apart(x, y)
    ensures Sum(x, y) == Or(x, y)
  {
    ApartRaw(x, y);
  }

  lemma UpIs(x: word)
    ensures Up(x, 8) == x << 8 && Up(x, 16) == x << 16 && Up(x, 24) == x << 24
  {
  }

  lemma HalvesRaw(b0: byte, b1: byte, b2: byte, b3: byte)
    ensures ((b0 as word) | ((b1 as word) << 8)) & (((b2 as word) | ((b3 as word) << 8)) << 16) == 0
    ensures ((b0 as word) | ((b1 as word) << 8)) | (((b2 as word) | ((b3 as word) << 8)) << 16)
         == (b0 as word) | ((b1 as word) << 8) | ((b2 as word) << 16) | ((b3 as word) << 24)
  {
  }

  lemma HalvesJoin(b0: byte, b1: byte, b2: byte, b3: byte)
    ensures Apart(Half(b0, b1), Up(Half(b2, b3), 16))
    ensures Or(Half(b0, b1), Up(Half(b2, b3), 16)) == Le(b0, b1, b2, b3)
  {
    UpIs(Half(b2, b3));
    HalvesRaw(b0, b1, b2, b3);
  }

  lemma HalvesIs(b0: byte, b1: byte, b2: byte, b3: byte)
    ensures Sum(Half(b0, b1), Up(Half(b2, b3), 16)) == Le(b0, b1, b2, b3)
  {
    hide Sum, Half, Up, Le, Or, Apart;
    HalvesJoin(b0, b1, b2, b3);
    SumOr(Half(b0, b1), Up(Half(b2, b3), 16));
  }

  /** The next byte behind the n low-order bytes of a word. */
  lemma NextByteRaw(b0: byte, b1: byte, b2: byte, b3: byte)
    ensures (b0 as word) & ((b1 as word) << 8) == 0
    ensures ((b0 as word) | ((b1 as word) << 8)) & ((b2 as word) << 16) == 0
    ensures (((b0 as word) | ((b1 as word) << 8)) | ((b2 as word) << 16)) & ((b3 as word) << 24) == 0
  {
  }

  lemma BytesJoin(b0: byte, b1: byte, b2: byte, b3: byte)
    ensures Apart(b0 as word, Up(b1 as word, 8))
    ensures Apart(Or(b0 as word, Up(b1 as word, 8)), Up(b2 as word, 16))
    ensures Apart(Or(Or(b0 as word, Up(b1 as word, 8)), Up(b2 as word, 16)), Up(b3 as word, 24))
    ensures Or(Or(Or(b0 as word, Up(b1 as word, 8)), Up(b2 as word, 16)), Up(b3 as word, 24)) == Le(b0, b1, b2, b3)
  {
    UpIs(b1 as word);
    UpIs(b2 as word);
    UpIs(b3 as word);
    NextByteRaw(b0, b1, b2, b3);
  }

  lemma BytesIs(b0: byte, b1: byte, b2: byte, b3: byte)
    ensures Sum(Sum(Sum(b0 as word, Up(b1 as word, 8)), Up(b2 as word, 16)), Up(b3 as word, 24)) == Le(b0, b1, b2, b3)
  {
    hide Sum, Up, Le, Or, Apart;
    BytesJoin(b0, b1, b2, b3);
    SumOr(b0 as word, Up(b1 as word, 8));
    SumOr(Or(b0 as word, Up(b1 as word, 8)), Up(b2 as word, 16));
    SumOr(Or(Or(b0 as word, Up(b1 as word, 8)), Up(b2 as word, 16)), Up(b3 as word, 24));
  }

  lemma SumZero(x: word)
    ensures Sum(x, 0) == x
  {
  }

  lemma NothingUp(s: nat)
    requires s < 32
    ensures Up(0, s) == 0
  {
  }

  // ---------------------------------------------------------------- the macros

  /** mix. */
  method MixMacro(a0: word, b0: word, c0: word) returns (a: word, b: word, c: word)
    ensures Abc(a, b, c) == Mix(Abc(a0, b0, c0))
  {
    hide Less, Xor, Rotated, Sum;
    a, b, c := a0, b0, c0;
    a := Less(a, c); a := Xor(a, Rotated(c, 4)); c := Sum(c, b);
    b := Less(b, a); b := Xor(b, Rotated(a, 6)); a := Sum(a, c);
    c := Less(c, b); c := Xor(c, Rotated(b, 8)); b := Sum(b, a);
    a := Less(a, c); a := Xor(a, Rotated(c, 16)); c := Sum(c, b);
    b := Less(b, a); b := Xor(b, Rotated(a, 19)); a := Sum(a, c);
    c := Less(c, b); c := Xor(c, Rotated(b, 4)); b := Sum(b, a);
  }

  /** final. */
  method FinalMacro(a0: word, b0: word, c0: word) returns (a: word, b: word, c: word)
    ensures Abc(a, b, c) == Final(Abc(a0, b0, c0))
  {
    hide Less, Xor, Rotated, Sum;
    a, b, c := a0, b0, c0;
    c := Xor(c, b); c := Less(c, Rotated(b, 14));
    a := Xor(a, c); a := Less(a, Rotated(c, 11));
    b := Xor(b, a); b := Less(b, Rotated(a, 25));
    c := Xor(c, b); c := Less(c, Rotated(b, 16));
    a := Xor(a, c); a := Less(a, Rotated(c, 4));
    b := Xor(b, a); b := Less(b, Rotated(a, 14));
    c := Xor(c, b); c := Less(c, Rotated(b, 24));
  }

  // ---------------------------------------------------------------- by words

  /** The switch over what is left, one to twelve bytes; loads beyond the key are masked. */
  method LastWords(mem: Memory, k: nat, n: nat, s: Abc) returns (t: Abc)
    requires k % 4 == 0 && 1 <= n <= 12
    ensures t == AddKey(s, mem, k, n)
  {
    hide Sum, Load32, KeyWord, Mask;
    ghost var end := k + n;
    var a, b, c := s.a, s.b, s.c;
    WordOf(mem, k, n, 0, end);
    WordOf(mem, k, n, 4, end);
    WordOf(mem, k, n, 8, end);
    NoWord(s, mem, k, n);
    match n {
      case 12 => c := Sum(c, Load32(mem, k + 8, end)); b := Sum(b, Load32(mem, k + 4, end)); a := Sum(a, Load32(mem, k, end));
      case 11 => c := Sum(c, Mask(Load32(mem, k + 8, end), 0xff_ffff)); b := Sum(b, Load32(mem, k + 4, end)); a := Sum(a, Load32(mem, k, end));
      case 10 => c := Sum(c, Mask(Load32(mem, k + 8, end), 0xffff)); b := Sum(b, Load32(mem, k + 4, end)); a := Sum(a, Load32(mem, k, end));
      case 9 => c := Sum(c, Mask(Load32(mem, k + 8, end), 0xff)); b := Sum(b, Load32(mem, k + 4, end)); a := Sum(a, Load32(mem, k, end));
      case 8 => b := Sum(b, Load32(mem, k + 4, end)); a := Sum(a, Load32(mem, k, end));
      case 7 => b := Sum(b, Mask(Load32(mem, k + 4, end), 0xff_ffff)); a := Sum(a, Load32(mem, k, end));
      case 6 => b := Sum(b, Mask(Load32(mem, k + 4, end), 0xffff)); a := Sum(a, Load32(mem, k, end));
      case 5 => b := Sum(b, Mask(Load32(mem, k + 4, end), 0xff)); a := Sum(a, Load32(mem, k, end));
      case 4 => a := Sum(a, Load32(mem, k, end));
      case 3 => a := Sum(a, Mask(Load32(mem, k, end), 0xff_ffff));
      case 2 => a := Sum(a, Mask(Load32(mem, k, end), 0xffff));
      case _ => a := Sum(a, Mask(Load32(mem, k, end), 0xff));
    }
    t := Abc(a, b, c);
  }

  /** What has to be added of a word of the key, by how many of its bytes are there. */
  lemma WordOf(mem: Memory, k: nat, n: nat, i: nat, end: nat)
    requires (k + i) % 4 == 0 && end == k + n
    ensures i + 4 <= n ==> KeyWord(mem, k, n, i) == Load32(mem, k + i, end)
    ensures n == i + 3 ==> KeyWord(mem, k, n, i) == Mask(Load32(mem, k + i, end), 0xff_ffff)
    ensures n == i + 2 ==> KeyWord(mem, k, n, i) == Mask(Load32(mem, k + i, end), 0xffff)
    ensures n == i + 1 ==> KeyWord(mem, k, n, i) == Mask(Load32(mem, k + i, end), 0xff)
  {
    hide Mask, Le;
    var p := k + i;
    Mask3(mem(p), mem(p + 1), mem(p + 2), mem(p + 3));
    Mask2(mem(p), mem(p + 1), mem(p + 2), mem(p + 3));
    Mask1(mem(p), mem(p + 1), mem(p + 2), mem(p + 3));
  }

  /** A register that no byte is left for stays as it is. */
  lemma NoWord(s: Abc, mem: Memory, k: nat, n: nat)
    ensures n <= 4 ==> Sum(s.b, KeyWord(mem, k, n, 4)) == s.b
    ensures n <= 8 ==> Sum(s.c, KeyWord(mem, k, n, 8)) == s.c
  {
    hide Sum, Le;
    LeZero();
    SumZero(s.b);
    SumZero(s.c);
  }

  lemma LeZero()
    ensures Le(0, 0, 0, 0) == 0
  {
  }

  /** The branch for addresses that are a multiple of four. */
  method ByWords(mem: Memory, key: nat, length: nat) returns (hash: word)
    requires key % 4 == 0
    ensures hash == Jenkins(Bytes(mem, key, length))
  {
    hide Sum, Le, Mix, AddKey, Final, Bytes, Absorb, Start, Load32;
    ghost var end := key + length;
    var k, n := key, length;
    var a := Start(length, INITVAL);
    var b, c := a, a;
    while n > 12
      invariant k + n == end && k % 4 == 0
      invariant Absorb(Abc(a, b, c), Bytes(mem, k, n)) == Jenkins(Bytes(mem, key, length))
    {
      BlockIs(Abc(a, b, c), mem, k, n);
      WholeWords(Abc(a, b, c), mem, k, end);
      a := Sum(a, Load32(mem, k, end));
      b := Sum(b, Load32(mem, k + 4, end));
      c := Sum(c, Load32(mem, k + 8, end));
      a, b, c := MixMacro(a, b, c);
      n := n - 12;
      k := k + 12;
    }
    LastIs(Abc(a, b, c), mem, k, n);
    if n == 0 {
      return c;
    }
    var t := LastWords(mem, k, n, Abc(a, b, c));
    a, b, c := FinalMacro(t.a, t.b, t.c);
    return c;
  }

  lemma BlockIs(s: Abc, mem: Memory, k: nat, n: nat)
    requires n > 12
    ensures Absorb(s, Bytes(mem, k, n)) == Absorb(Mix(AddKey(s, mem, k, 12)), Bytes(mem, k + 12, n - 12))
  {
    hide Bytes, AddIn, AddKey, Mix, Last;
    AddKeyIs(s, mem, k, n);
    BytesOn(mem, k, n);
  }

  lemma LastIs(s: Abc, mem: Memory, k: nat, n: nat)
    requires n <= 12
    ensures Absorb(s, Bytes(mem, k, n)) == if n == 0 then s.c else Final(AddKey(s, mem, k, n)).c
  {
    hide AddIn, AddKey, Final;
    AddKeyIs(s, mem, k, n);
  }

  lemma WholeWords(s: Abc, mem: Memory, k: nat, end: nat)
    requires k % 4 == 0 && k + 12 <= end
    ensures AddKey(s, mem, k, 12)
         == Abc(Sum(s.a, Load32(mem, k, end)), Sum(s.b, Load32(mem, k + 4, end)), Sum(s.c, Load32(mem, k + 8, end)))
  {
    hide Sum, Le;
  }

  // ---------------------------------------------------------------- by half words

  /** What has to be added of a word of the key, read by halves; x is the register. */
  lemma HalvesOf(x: word, mem: Memory, k: nat, n: nat, i: nat, end: nat)
    requires (k + i) % 2 == 0 && (k + i + 2) % 2 == 0 && end == k + n
    ensures i + 4 <= n ==> KeyWord(mem, k, n, i) == Sum(Load16(mem, k + i, end), Up(Load16(mem, k + i + 2, end), 16))
    ensures n == i + 3 ==>
              Sum(Sum(x, Up(Load8(mem, k + i + 2, end), 16)), Load16(mem, k + i, end)) == Sum(x, KeyWord(mem, k, n, i))
    ensures n == i + 2 ==> KeyWord(mem, k, n, i) == Load16(mem, k + i, end)
    ensures n == i + 1 ==> KeyWord(mem, k, n, i) == Load8(mem, k + i, end)
  {
    hide Le, Sum, Up, Half;
    var p := k + i;
    HalvesIs(mem(p), mem(p + 1), mem(p + 2), mem(p + 3));
    ThreeOf(x, mem(p), mem(p + 1), mem(p + 2));
    ShortOf(mem(p), mem(p + 1));
  }

  lemma ThreeOf(x: word, b0: byte, b1: byte, b2: byte)
    ensures Sum(Sum(x, Up(b2 as word, 16)), Half(b0, b1)) == Sum(x, Le(b0, b1, b2, 0))
  {
    hide Le, Sum, Half, Up;
    HalvesIs(b0, b1, b2, 0);
    HalfShort(b2);
    SumIs(x, Up(b2 as word, 16), Half(b0, b1));
    SumIs(Up(b2 as word, 16), Half(b0, b1), x);
  }

  lemma HalfShort(b: byte)
    ensures Half(b, 0) == b as word
  {
  }

  lemma ShortOf(b0: byte, b1: byte)
    ensures Le(b0, b1, 0, 0) == Half(b0, b1) && Le(b0, 0, 0, 0) == b0 as word
  {
  }

  /** Four cases of the switch: the register x gets the one to four bytes that are left at i. */
  method LastHalf(mem: Memory, k: nat, n: nat, i: nat, x: word) returns (y: word)
    requires (k + i) % 2 == 0 && (k + i + 2) % 2 == 0 && i < n <= i + 4
    ensures y == Sum(x, KeyWord(mem, k, n, i))
  {
    hide Sum, Up, Load16, Load8, KeyWord;
    ghost var end := k + n;
    HalvesOf(x, mem, k, n, i, end);
    y := x;
    match n - i {
      case 4 =>
        y := Sum(y, Sum(Load16(mem, k + i, end), Up(Load16(mem, k + i + 2, end), 16)));
      case 3 =>
        y := Sum(y, Up(Load8(mem, k + i + 2, end), 16));
        y := Sum(y, Load16(mem, k + i, end));
      case 2 =>
        y := Sum(y, Load16(mem, k + i, end));
      case _ =>
        y := Sum(y, Load8(mem, k + i, end));
    }
  }

  /** The switch of the branch for even addresses: its cases 12 to 9, 8 to 5, and 4 to 1. */
  method LastHalves(mem: Memory, k: nat, n: nat, s: Abc) returns (t: Abc)
    requires k % 2 == 0 && 1 <= n <= 12
    ensures t == AddKey(s, mem, k, n)
  {
    hide Sum, Up, Load16, Load8, KeyWord;
    ghost var end := k + n;
    var a, b, c := s.a, s.b, s.c;
    NoWord(s, mem, k, n);
    HalvesOf(a, mem, k, n, 0, end);
    HalvesOf(b, mem, k, n, 4, end);
    if n > 8 {
      c := LastHalf(mem, k, n, 8, c);
      b := Sum(b, Sum(Load16(mem, k + 4, end), Up(Load16(mem, k + 6, end), 16)));
      a := Sum(a, Sum(Load16(mem, k, end), Up(Load16(mem, k + 2, end), 16)));
    } else if n > 4 {
      b := LastHalf(mem, k, n, 4, b);
      a := Sum(a, Sum(Load16(mem, k, end), Up(Load16(mem, k + 2, end), 16)));
    } else {
      a := LastHalf(mem, k, n, 0, a);
    }
    t := Abc(a, b, c);
  }

  /** The branch for other even addresses. */
  method ByHalves(mem: Memory, key: nat, length: nat) returns (hash: word)
    requires key % 2 == 0
    ensures hash == Jenkins(Bytes(mem, key, length))
  {
    hide Sum, Le, Mix, AddKey, Final, Bytes, Absorb, Start, Load16, Up;
    ghost var end := key + length;
    var k, n := key, length;
    var a := Start(length, INITVAL);
    var b, c := a, a;
    while n > 12
      invariant k + n == end && k % 2 == 0
      invariant Absorb(Abc(a, b, c), Bytes(mem, k, n)) == Jenkins(Bytes(mem, key, length))
    {
      BlockIs(Abc(a, b, c), mem, k, n);
      WholeHalves(Abc(a, b, c), mem, k, end);
      a := Sum(a, Sum(Load16(mem, k, end), Up(Load16(mem, k + 2, end), 16)));
      b := Sum(b, Sum(Load16(mem, k + 4, end), Up(Load16(mem, k + 6, end), 16)));
      c := Sum(c, Sum(Load16(mem, k + 8, end), Up(Load16(mem, k + 10, end), 16)));
      a, b, c := MixMacro(a, b, c);
      n := n - 12;
      k := k + 12;
    }
    LastIs(Abc(a, b, c), mem, k, n);
    if n == 0 {
      return c;
    }
    var t := LastHalves(mem, k, n, Abc(a, b, c));
    a, b, c := FinalMacro(t.a, t.b, t.c);
    return c;
  }

  lemma WholeHalves(s: Abc, mem: Memory, k: nat, end: nat)
    requires k % 2 == 0 && k + 12 <= end
    ensures AddKey(s, mem, k, 12)
         == Abc(Sum(s.a, Sum(Load16(mem, k, end), Up(Load16(mem, k + 2, end), 16))),
                Sum(s.b, Sum(Load16(mem, k + 4, end), Up(Load16(mem, k + 6, end), 16))),
                Sum(s.c, Sum(Load16(mem, k + 8, end), Up(Load16(mem, k + 10, end), 16))))
  {
    hide Sum, Le, Up;
    HalvesIs(mem(k), mem(k + 1), mem(k + 2), mem(k + 3));
    HalvesIs(mem(k + 4), mem(k + 5), mem(k + 6), mem(k + 7));
    HalvesIs(mem(k + 8), mem(k + 9), mem(k + 10), mem(k + 11));
  }

  // ---------------------------------------------------------------- byte by byte

  lemma FourUp(x: word, b0: byte, b1: byte, b2: byte, b3: byte)
    ensures Sum(Sum(Sum(Sum(x, b0 as word), Up(b1 as word, 8)), Up(b2 as word, 16)), Up(b3 as word, 24))
         == Sum(x, Le(b0, b1, b2, b3))
  {
    hide Sum, Up, Le;
    var w0, w1, w2, w3 := b0 as word, Up(b1 as word, 8), Up(b2 as word, 16), Up(b3 as word, 24);
    BytesIs(b0, b1, b2, b3);
    SumIs(x, w0, w1);
    SumIs(x, Sum(w0, w1), w2);
    SumIs(x, Sum(Sum(w0, w1), w2), w3);
  }

  lemma FourDown(x: word, b0: byte, b1: byte, b2: byte, b3: byte)
    ensures Sum(Sum(Sum(Sum(x, Up(b3 as word, 24)), Up(b2 as word, 16)), Up(b1 as word, 8)), b0 as word)
         == Sum(x, Le(b0, b1, b2, b3))
  {
    hide Sum, Up, Le;
    var w0, w1, w2, w3 := b0 as word, Up(b1 as word, 8), Up(b2 as word, 16), Up(b3 as word, 24);
    FourUp(x, b0, b1, b2, b3);
    Reversed(x, w3, w2, w1, w0);
  }

  lemma Swap(x: word, y: word, z: word)
    ensures Sum(Sum(x, y), z) == Sum(Sum(x, z), y)
  {
    hide Sum;
    SumIs(x, y, z);
    SumIs(x, z, y);
    SumIs(y, z, x);
  }

  lemma Reversed(x: word, p: word, q: word, r: word, s: word)
    ensures Sum(Sum(Sum(Sum(x, p), q), r), s) == Sum(Sum(Sum(Sum(x, s), r), q), p)
  {
    hide Sum;
    Swap(Sum(Sum(x, p), q), r, s);
    Swap(Sum(x, p), q, s);
    Swap(x, p, s);
    var y := Sum(x, s);
    Swap(Sum(y, p), q, r);
    Swap(y, p, r);
    Swap(Sum(y, r), p, q);
  }

  /** Four fall-through cases: the one to four bytes that are left at i, from the last one down. */
  method LastByte(mem: Memory, k: nat, n: nat, i: nat, x: word) returns (y: word)
    requires i < n
    ensures y == Sum(x, KeyWord(mem, k, n, i))
  {
    hide Sum, Up, Le;
    ghost var end := k + n;
    FourDown(x, Key(mem, k, n, i), Key(mem, k, n, i + 1), Key(mem, k, n, i + 2), Key(mem, k, n, i + 3));
    NothingUp(24);
    NothingUp(16);
    NothingUp(8);
    SumZero(x);
    y := x;
    if n >= i + 4 {
      y := Sum(y, Up(Load8(mem, k + i + 3, end), 24));
    }
    if n >= i + 3 {
      y := Sum(y, Up(Load8(mem, k + i + 2, end), 16));
    }
    if n >= i + 2 {
      y := Sum(y, Up(Load8(mem, k + i + 1, end), 8));
    }
    y := Sum(y, Load8(mem, k + i, end));
  }

  /** The switch of the last branch: every case falls through to the ones below. */
  method LastBytes(mem: Memory, k: nat, n: nat, s: Abc) returns (t: Abc)
    requires 1 <= n <= 12
    ensures t == AddKey(s, mem, k, n)
  {
    hide Sum, KeyWord;
    var a, b, c := s.a, s.b, s.c;
    NoWord(s, mem, k, n);
    if n > 8 {
      c := LastByte(mem, k, n, 8, c);
    }
    if n > 4 {
      b := LastByte(mem, k, n, 4, b);
    }
    a := LastByte(mem, k, n, 0, a);
    t := Abc(a, b, c);
  }

  method WholeWord(mem: Memory, k: nat, i: nat, ghost end: nat, x: word) returns (y: word)
    requires k + i + 4 <= end && i + 4 <= 12
    ensures y == Sum(x, KeyWord(mem, k, 12, i))
  {
    hide Sum, Up, Le;
    y := Sum(x, Load8(mem, k + i, end));
    y := Sum(y, Up(Load8(mem, k + i + 1, end), 8));
    y := Sum(y, Up(Load8(mem, k + i + 2, end), 16));
    y := Sum(y, Up(Load8(mem, k + i + 3, end), 24));
    FourUp(x, mem(k + i), mem(k + i + 1), mem(k + i + 2), mem(k + i + 3));
  }

  /** The branch for odd addresses. */
  method ByBytes(mem: Memory, key: nat, length: nat) returns (hash: word)
    ensures hash == Jenkins(Bytes(mem, key, length))
  {
    hide Sum, Mix, Final, Bytes, Absorb, Start, KeyWord;
    ghost var end := key + length;
    var k, n := key, length;
    var a := Start(length, INITVAL);
    var b, c := a, a;
    while n > 12
      invariant k + n == end
      invariant Absorb(Abc(a, b, c), Bytes(mem, k, n)) == Jenkins(Bytes(mem, key, length))
    {
      BlockIs(Abc(a, b, c), mem, k, n);
      a := WholeWord(mem, k, 0, end, a);
      b := WholeWord(mem, k, 4, end, b);
      c := WholeWord(mem, k, 8, end, c);
      a, b, c := MixMacro(a, b, c);
      n := n - 12;
      k := k + 12;
    }
    LastIs(Abc(a, b, c), mem, k, n);
    if n == 0 {
      return c;
    }
    var t := LastBytes(mem, k, n, Abc(a, b, c));
    a, b, c := FinalMacro(t.a, t.b, t.c);
    return c;
  }

  // ---------------------------------------------------------------- hash_jenkins

  /** The three branches agree: the address decides how the key is read, not what its hash is. */
  method Hash(mem: Memory, key: nat, length: nat) returns (hash: word)
    ensures hash == Jenkins(Bytes(mem, key, length))
  {
    if key % 4 == 0 {
      hash := ByWords(mem, key, length);
    } else if key % 2 == 0 {
      hash := ByHalves(mem, key, length);
    } else {
      hash := ByBytes(mem, key, length);
    }
  }
}
