/** The macros and the unrolled rounds of common/hashkit/nc_md5.c. */
module Md5Body {
  import opened Words
  import opened Md5Spec

  // ---------------------------------------------------------------- the macros

  function OptF(x: word, y: word, z: word): word { z ^ (x & (y ^ z)) }
  function OptG(x: word, y: word, z: word): word { y ^ (z & (x ^ y)) }

  lemma AndNotF(x: word, y: word, z: word)
    ensures z ^ (x & (y ^ z)) == (x & y) | (!x & z)
  {
  }

  lemma AndNotG(x: word, y: word, z: word)
    ensures y ^ (z & (x ^ y)) == (x & z) | (y & !z)
  {
  }

  /** The forms without and-not are the functions of RFC 1321. */
  lemma OptIs(x: word, y: word, z: word)
    ensures OptF(x, y, z) == F(x, y, z) && OptG(x, y, z) == G(x, y, z)
  {
    AndNotF(x, y, z);
    AndNotG(x, y, z);
  }

  /** The last two lines of STEP. */
  function Turned(a: word, b: word, s: nat): word
    requires 0 < s < 32
  {
    Sum(Joined(a, a & 0xffff_ffff, s), b)
  }

  function StepF(a: word, b: word, c: word, d: word, x: word, t: word, s: nat): word
    requires 0 < s < 32
  {
    Turned(Sum(a, Sum(Sum(OptF(b, c, d), x), t)), b, s)
  }

  function StepG(a: word, b: word, c: word, d: word, x: word, t: word, s: nat): word
    requires 0 < s < 32
  {
    Turned(Sum(a, Sum(Sum(OptG(b, c, d), x), t)), b, s)
  }

  function StepH(a: word, b: word, c: word, d: word, x: word, t: word, s: nat): word
    requires 0 < s < 32
  {
    Turned(Sum(a, Sum(Sum(H(b, c, d), x), t)), b, s)
  }

  function StepI(a: word, b: word, c: word, d: word, x: word, t: word, s: nat): word
    requires 0 < s < 32
  {
    Turned(Sum(a, Sum(Sum(I(b, c, d), x), t)), b, s)
  }

  lemma AllOnes(a: word)
    ensures a & 0xffff_ffff == a
  {
  }

  lemma TurnedIs(a: word, b: word, s: nat)
    requires 0 < s < 32
    ensures Turned(a, b, s) == Sum(b, Rotated(a, s))
  {
    hide Joined, Sum;
    AllOnes(a);
    SumIs(Rotated(a, s), b, b);
  }

  /** One form for the four macros; f is what the basic function yields. */
  lemma SumsIs(a: word, b: word, f: word, x: word, t: word, s: nat)
    requires 0 < s < 32
    ensures Turned(Sum(a, Sum(Sum(f, x), t)), b, s) == Sum(b, Rotated(Sum(Sum(Sum(a, f), x), t), s))
  {
    hide Rotated, Turned, Sum;
    TurnedIs(Sum(Sum(Sum(a, f), x), t), b, s);
    SumIs(a, f, x);
    SumIs(a, Sum(f, x), t);
  }

  /** What a macro call does to its first register. */
  function StepOf(i: nat, a: word, b: word, c: word, d: word, x: word): word {
    if i < 16 then StepF(a, b, c, d, x, Sine(i), Turn(i)) else if i < 32 then StepG(a, b, c, d, x, Sine(i), Turn(i))
    else if i < 48 then StepH(a, b, c, d, x, Sine(i), Turn(i)) else StepI(a, b, c, d, x, Sine(i), Turn(i))
  }

  lemma StepOfIs(i: nat, a: word, b: word, c: word, d: word, x: word)
    ensures StepOf(i, a, b, c, d, x) == Turned(Sum(a, Sum(Sum(Mixed(i, b, c, d), x), Sine(i))), b, Turn(i))
  {
    hide OptF, OptG, F, G, H, I, Turned, Sum, Sine, Turn;
    OptIs(b, c, d);
  }

  lemma StepIs(s: State, x: Block, i: nat)
    ensures Step(s, x, i) == State(s.d, StepOf(i, s.a, s.b, s.c, s.d, x[Index(i)]), s.b, s.c)
  {
    hide StepOf, Mixed, Turned, Rotated, Index, Sine, Turn, Sum;
    StepOfIs(i, s.a, s.b, s.c, s.d, x[Index(i)]);
    SumsIs(s.a, s.b, Mixed(i, s.b, s.c, s.d), x[Index(i)], Sine(i), Turn(i));
  }

  // ---------------------------------------------------------------- the four rounds

  /** Four macro calls bring the registers back to their places. */
  lemma FourSteps(s: State, x: Block, i: nat)
    ensures var p := Steps(s, x, i);
            var a := StepOf(i, p.a, p.b, p.c, p.d, x[Index(i)]);
            var d := StepOf(i + 1, p.d, a, p.b, p.c, x[Index(i + 1)]);
            var c := StepOf(i + 2, p.c, d, a, p.b, x[Index(i + 2)]);
            var b := StepOf(i + 3, p.b, c, d, a, x[Index(i + 3)]);
            Steps(s, x, i + 4) == State(a, b, c, d)
  {
    hide StepOf, Index, Step;
    StepIs(Steps(s, x, i), x, i);
    StepIs(Steps(s, x, i + 1), x, i + 1);
    StepIs(Steps(s, x, i + 2), x, i + 2);
    StepIs(Steps(s, x, i + 3), x, i + 3);
  }

  lemma Table1()
    ensures Index(0) == 0 && Turn(0) == 7
    ensures Index(1) == 1 && Turn(1) == 12
    ensures Index(2) == 2 && Turn(2) == 17
    ensures Index(3) == 3 && Turn(3) == 22
    ensures Index(4) == 4 && Turn(4) == 7
    ensures Index(5) == 5 && Turn(5) == 12
    ensures Index(6) == 6 && Turn(6) == 17
    ensures Index(7) == 7 && Turn(7) == 22
    ensures Index(8) == 8 && Turn(8) == 7
    ensures Index(9) == 9 && Turn(9) == 12
    ensures Index(10) == 10 && Turn(10) == 17
    ensures Index(11) == 11 && Turn(11) == 22
    ensures Index(12) == 12 && Turn(12) == 7
    ensures Index(13) == 13 && Turn(13) == 12
    ensures Index(14) == 14 && Turn(14) == 17
    ensures Index(15) == 15 && Turn(15) == 22
  {
  }

  lemma Sines1()
    ensures Sine(0) == 0xd76aa478
    ensures Sine(1) == 0xe8c7b756
    ensures Sine(2) == 0x242070db
    ensures Sine(3) == 0xc1bdceee
    ensures Sine(4) == 0xf57c0faf
    ensures Sine(5) == 0x4787c62a
    ensures Sine(6) == 0xa8304613
    ensures Sine(7) == 0xfd469501
    ensures Sine(8) == 0x698098d8
    ensures Sine(9) == 0x8b44f7af
    ensures Sine(10) == 0xffff5bb1
    ensures Sine(11) == 0x895cd7be
    ensures Sine(12) == 0x6b901122
    ensures Sine(13) == 0xfd987193
    ensures Sine(14) == 0xa679438e
    ensures Sine(15) == 0x49b40821
  {
  }

  /** Round 1; x is the block, s what the registers hold when it starts on it. */
  method Round1(a0: word, b0: word, c0: word, d0: word, x: Block, ghost s: State) returns (a: word, b: word, c: word, d: word)
    requires State(a0, b0, c0, d0) == Steps(s, x, 0)
    ensures State(a, b, c, d) == Steps(s, x, 16)
  {
    hide StepF, StepG, StepH, StepI, Steps, Index, Sine, Turn;
    a, b, c, d := a0, b0, c0, d0;
    Table1();
    Sines1();
    FourSteps(s, x, 0);
    a := StepF(a, b, c, d, x[0], 0xd76aa478, 7);
    d := StepF(d, a, b, c, x[1], 0xe8c7b756, 12);
    c := StepF(c, d, a, b, x[2], 0x242070db, 17);
    b := StepF(b, c, d, a, x[3], 0xc1bdceee, 22);
    FourSteps(s, x, 4);
    a := StepF(a, b, c, d, x[4], 0xf57c0faf, 7);
    d := StepF(d, a, b, c, x[5], 0x4787c62a, 12);
    c := StepF(c, d, a, b, x[6], 0xa8304613, 17);
    b := StepF(b, c, d, a, x[7], 0xfd469501, 22);
    FourSteps(s, x, 8);
    a := StepF(a, b, c, d, x[8], 0x698098d8, 7);
    d := StepF(d, a, b, c, x[9], 0x8b44f7af, 12);
    c := StepF(c, d, a, b, x[10], 0xffff5bb1, 17);
    b := StepF(b, c, d, a, x[11], 0x895cd7be, 22);
    FourSteps(s, x, 12);
    a := StepF(a, b, c, d, x[12], 0x6b901122, 7);
    d := StepF(d, a, b, c, x[13], 0xfd987193, 12);
    c := StepF(c, d, a, b, x[14], 0xa679438e, 17);
    b := StepF(b, c, d, a, x[15], 0x49b40821, 22);
  }

  lemma Table2()
    ensures Index(16) == 1 && Turn(16) == 5
    ensures Index(17) == 6 && Turn(17) == 9
    ensures Index(18) == 11 && Turn(18) == 14
    ensures Index(19) == 0 && Turn(19) == 20
    ensures Index(20) == 5 && Turn(20) == 5
    ensures Index(21) == 10 && Turn(21) == 9
    ensures Index(22) == 15 && Turn(22) == 14
    ensures Index(23) == 4 && Turn(23) == 20
    ensures Index(24) == 9 && Turn(24) == 5
    ensures Index(25) == 14 && Turn(25) == 9
    ensures Index(26) == 3 && Turn(26) == 14
    ensures Index(27) == 8 && Turn(27) == 20
    ensures Index(28) == 13 && Turn(28) == 5
    ensures Index(29) == 2 && Turn(29) == 9
    ensures Index(30) == 7 && Turn(30) == 14
    ensures Index(31) == 12 && Turn(31) == 20
  {
  }

  lemma Sines2()
    ensures Sine(16) == 0xf61e2562
    ensures Sine(17) == 0xc040b340
    ensures Sine(18) == 0x265e5a51
    ensures Sine(19) == 0xe9b6c7aa
    ensures Sine(20) == 0xd62f105d
    ensures Sine(21) == 0x02441453
    ensures Sine(22) == 0xd8a1e681
    ensures Sine(23) == 0xe7d3fbc8
    ensures Sine(24) == 0x21e1cde6
    ensures Sine(25) == 0xc33707d6
    ensures Sine(26) == 0xf4d50d87
    ensures Sine(27) == 0x455a14ed
    ensures Sine(28) == 0xa9e3e905
    ensures Sine(29) == 0xfcefa3f8
    ensures Sine(30) == 0x676f02d9
    ensures Sine(31) == 0x8d2a4c8a
  {
  }

  /** Round 2; x is the block, s what the registers hold when it starts on it. */
  method Round2(a0: word, b0: word, c0: word, d0: word, x: Block, ghost s: State) returns (a: word, b: word, c: word, d: word)
    requires State(a0, b0, c0, d0) == Steps(s, x, 16)
    ensures State(a, b, c, d) == Steps(s, x, 32)
  {
    hide StepF, StepG, StepH, StepI, Steps, Index, Sine, Turn;
    a, b, c, d := a0, b0, c0, d0;
    Table2();
    Sines2();
    FourSteps(s, x, 16);
    a := StepG(a, b, c, d, x[1], 0xf61e2562, 5);
    d := StepG(d, a, b, c, x[6], 0xc040b340, 9);
    c := StepG(c, d, a, b, x[11], 0x265e5a51, 14);
    b := StepG(b, c, d, a, x[0], 0xe9b6c7aa, 20);
    FourSteps(s, x, 20);
    a := StepG(a, b, c, d, x[5], 0xd62f105d, 5);
    d := StepG(d, a, b, c, x[10], 0x02441453, 9);
    c := StepG(c, d, a, b, x[15], 0xd8a1e681, 14);
    b := StepG(b, c, d, a, x[4], 0xe7d3fbc8, 20);
    FourSteps(s, x, 24);
    a := StepG(a, b, c, d, x[9], 0x21e1cde6, 5);
    d := StepG(d, a, b, c, x[14], 0xc33707d6, 9);
    c := StepG(c, d, a, b, x[3], 0xf4d50d87, 14);
    b := StepG(b, c, d, a, x[8], 0x455a14ed, 20);
    FourSteps(s, x, 28);
    a := StepG(a, b, c, d, x[13], 0xa9e3e905, 5);
    d := StepG(d, a, b, c, x[2], 0xfcefa3f8, 9);
    c := StepG(c, d, a, b, x[7], 0x676f02d9, 14);
    b := StepG(b, c, d, a, x[12], 0x8d2a4c8a, 20);
  }

  lemma Table3()
    ensures Index(32) == 5 && Turn(32) == 4
    ensures Index(33) == 8 && Turn(33) == 11
    ensures Index(34) == 11 && Turn(34) == 16
    ensures Index(35) == 14 && Turn(35) == 23
    ensures Index(36) == 1 && Turn(36) == 4
    ensures Index(37) == 4 && Turn(37) == 11
    ensures Index(38) == 7 && Turn(38) == 16
    ensures Index(39) == 10 && Turn(39) == 23
    ensures Index(40) == 13 && Turn(40) == 4
    ensures Index(41) == 0 && Turn(41) == 11
    ensures Index(42) == 3 && Turn(42) == 16
    ensures Index(43) == 6 && Turn(43) == 23
    ensures Index(44) == 9 && Turn(44) == 4
    ensures Index(45) == 12 && Turn(45) == 11
    ensures Index(46) == 15 && Turn(46) == 16
    ensures Index(47) == 2 && Turn(47) == 23
  {
  }

  lemma Sines3()
    ensures Sine(32) == 0xfffa3942
    ensures Sine(33) == 0x8771f681
    ensures Sine(34) == 0x6d9d6122
    ensures Sine(35) == 0xfde5380c
    ensures Sine(36) == 0xa4beea44
    ensures Sine(37) == 0x4bdecfa9
    ensures Sine(38) == 0xf6bb4b60
    ensures Sine(39) == 0xbebfbc70
    ensures Sine(40) == 0x289b7ec6
    ensures Sine(41) == 0xeaa127fa
    ensures Sine(42) == 0xd4ef3085
    ensures Sine(43) == 0x04881d05
    ensures Sine(44) == 0xd9d4d039
    ensures Sine(45) == 0xe6db99e5
    ensures Sine(46) == 0x1fa27cf8
    ensures Sine(47) == 0xc4ac5665
  {
  }

  /** Round 3; x is the block, s what the registers hold when it starts on it. */
  method Round3(a0: word, b0: word, c0: word, d0: word, x: Block, ghost s: State) returns (a: word, b: word, c: word, d: word)
    requires State(a0, b0, c0, d0) == Steps(s, x, 32)
    ensures State(a, b, c, d) == Steps(s, x, 48)
  {
    hide StepF, StepG, StepH, StepI, Steps, Index, Sine, Turn;
    a, b, c, d := a0, b0, c0, d0;
    Table3();
    Sines3();
    FourSteps(s, x, 32);
    a := StepH(a, b, c, d, x[5], 0xfffa3942, 4);
    d := StepH(d, a, b, c, x[8], 0x8771f681, 11);
    c := StepH(c, d, a, b, x[11], 0x6d9d6122, 16);
    b := StepH(b, c, d, a, x[14], 0xfde5380c, 23);
    FourSteps(s, x, 36);
    a := StepH(a, b, c, d, x[1], 0xa4beea44, 4);
    d := StepH(d, a, b, c, x[4], 0x4bdecfa9, 11);
    c := StepH(c, d, a, b, x[7], 0xf6bb4b60, 16);
    b := StepH(b, c, d, a, x[10], 0xbebfbc70, 23);
    FourSteps(s, x, 40);
    a := StepH(a, b, c, d, x[13], 0x289b7ec6, 4);
    d := StepH(d, a, b, c, x[0], 0xeaa127fa, 11);
    c := StepH(c, d, a, b, x[3], 0xd4ef3085, 16);
    b := StepH(b, c, d, a, x[6], 0x04881d05, 23);
    FourSteps(s, x, 44);
    a := StepH(a, b, c, d, x[9], 0xd9d4d039, 4);
    d := StepH(d, a, b, c, x[12], 0xe6db99e5, 11);
    c := StepH(c, d, a, b, x[15], 0x1fa27cf8, 16);
    b := StepH(b, c, d, a, x[2], 0xc4ac5665, 23);
  }

  lemma Table4()
    ensures Index(48) == 0 && Turn(48) == 6
    ensures Index(49) == 7 && Turn(49) == 10
    ensures Index(50) == 14 && Turn(50) == 15
    ensures Index(51) == 5 && Turn(51) == 21
    ensures Index(52) == 12 && Turn(52) == 6
    ensures Index(53) == 3 && Turn(53) == 10
    ensures Index(54) == 10 && Turn(54) == 15
    ensures Index(55) == 1 && Turn(55) == 21
    ensures Index(56) == 8 && Turn(56) == 6
    ensures Index(57) == 15 && Turn(57) == 10
    ensures Index(58) == 6 && Turn(58) == 15
    ensures Index(59) == 13 && Turn(59) == 21
    ensures Index(60) == 4 && Turn(60) == 6
    ensures Index(61) == 11 && Turn(61) == 10
    ensures Index(62) == 2 && Turn(62) == 15
    ensures Index(63) == 9 && Turn(63) == 21
  {
  }

  lemma Sines4()
    ensures Sine(48) == 0xf4292244
    ensures Sine(49) == 0x432aff97
    ensures Sine(50) == 0xab9423a7
    ensures Sine(51) == 0xfc93a039
    ensures Sine(52) == 0x655b59c3
    ensures Sine(53) == 0x8f0ccc92
    ensures Sine(54) == 0xffeff47d
    ensures Sine(55) == 0x85845dd1
    ensures Sine(56) == 0x6fa87e4f
    ensures Sine(57) == 0xfe2ce6e0
    ensures Sine(58) == 0xa3014314
    ensures Sine(59) == 0x4e0811a1
    ensures Sine(60) == 0xf7537e82
    ensures Sine(61) == 0xbd3af235
    ensures Sine(62) == 0x2ad7d2bb
    ensures Sine(63) == 0xeb86d391
  {
  }

  /** Round 4; x is the block, s what the registers hold when it starts on it. */
  method Round4(a0: word, b0: word, c0: word, d0: word, x: Block, ghost s: State) returns (a: word, b: word, c: word, d: word)
    requires State(a0, b0, c0, d0) == Steps(s, x, 48)
    ensures State(a, b, c, d) == Steps(s, x, 64)
  {
    hide StepF, StepG, StepH, StepI, Steps, Index, Sine, Turn;
    a, b, c, d := a0, b0, c0, d0;
    Table4();
    Sines4();
    FourSteps(s, x, 48);
    a := StepI(a, b, c, d, x[0], 0xf4292244, 6);
    d := StepI(d, a, b, c, x[7], 0x432aff97, 10);
    c := StepI(c, d, a, b, x[14], 0xab9423a7, 15);
    b := StepI(b, c, d, a, x[5], 0xfc93a039, 21);
    FourSteps(s, x, 52);
    a := StepI(a, b, c, d, x[12], 0x655b59c3, 6);
    d := StepI(d, a, b, c, x[3], 0x8f0ccc92, 10);
    c := StepI(c, d, a, b, x[10], 0xffeff47d, 15);
    b := StepI(b, c, d, a, x[1], 0x85845dd1, 21);
    FourSteps(s, x, 56);
    a := StepI(a, b, c, d, x[8], 0x6fa87e4f, 6);
    d := StepI(d, a, b, c, x[15], 0xfe2ce6e0, 10);
    c := StepI(c, d, a, b, x[6], 0xa3014314, 15);
    b := StepI(b, c, d, a, x[13], 0x4e0811a1, 21);
    FourSteps(s, x, 60);
    a := StepI(a, b, c, d, x[4], 0xf7537e82, 6);
    d := StepI(d, a, b, c, x[11], 0xbd3af235, 10);
    c := StepI(c, d, a, b, x[2], 0x2ad7d2bb, 15);
    b := StepI(b, c, d, a, x[9], 0xeb86d391, 21);
  }
}
