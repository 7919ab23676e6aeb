/**
 The digest that section A.5 of RFC 1321 prints for the letters and digits, computed by the definitions
 of Md5Spec: one long calculation, and with it every constant, rotation and byte order in them.
 */
module Md5Digest {
  import opened Words
  import opened Md5Spec

  // ---------------------------------------------------------------- one step on known registers

  /** Step i takes word k, adds t and rotates by n. */
  predicate Takes(i: nat, k: nat, t: word, n: nat) {
    Index(i) == k && Sine(i) == t && Turn(i) == n
  }

  /** It turns these registers and this word into r; m is what the function of the round gives. */
  predicate Yields(i: nat, a: word, b: word, c: word, d: word, w: word, m: word, t: word, n: nat, r: word) {
    0 < n < 32 && Mixed(i, b, c, d) == m && Sum(b, Rotated(Sum(Sum(Sum(a, m), w), t), n)) == r
  }

  lemma OneStep(s: State, x: Block, i: nat, a: word, b: word, c: word, d: word, w: word, m: word, k: nat, t: word, n: nat, r: word)
    requires Takes(i, k, t, n) && Yields(i, a, b, c, d, w, m, t, n, r) && Steps(s, x, i) == State(a, b, c, d) && x[Index(i)] == w
    ensures Steps(s, x, i + 1) == State(d, r, b, c)
  {
    hide Mixed, Sine, Turn, Index, Rotated, Sum;
  }

  lemma AllSteps(s: State, x: Block)
    ensures forall i: nat, a, b, c, d, w, m, k: nat, t, n: nat, r | Takes(i, k, t, n) && Yields(i, a, b, c, d, w, m, t, n, r) ::
              Steps(s, x, i) == State(a, b, c, d) && k < 16 && x[k] == w ==> Steps(s, x, i + 1) == State(d, r, b, c)
  {
    hide Yields, Steps, Index, Sine, Turn;
    forall i: nat, a, b, c, d, w, m, k: nat, t, n: nat, r | Takes(i, k, t, n) && Yields(i, a, b, c, d, w, m, t, n, r)
      ensures Steps(s, x, i) == State(a, b, c, d) && k < 16 && x[k] == w ==> Steps(s, x, i + 1) == State(d, r, b, c)
    {
      if Steps(s, x, i) == State(a, b, c, d) && k < 16 && x[k] == w {
        OneStep(s, x, i, a, b, c, d, w, m, k, t, n, r);
      }
    }
  }

  // ---------------------------------------------------------------- the tables

  lemma Takes0()
    ensures Takes(0, 0, 0xd76aa478, 7) && Takes(1, 1, 0xe8c7b756, 12)
    ensures Takes(2, 2, 0x242070db, 17) && Takes(3, 3, 0xc1bdceee, 22)
  {
  }

  lemma Takes4()
    ensures Takes(4, 4, 0xf57c0faf, 7) && Takes(5, 5, 0x4787c62a, 12)
    ensures Takes(6, 6, 0xa8304613, 17) && Takes(7, 7, 0xfd469501, 22)
  {
  }

  lemma Takes8()
    ensures Takes(8, 8, 0x698098d8, 7) && Takes(9, 9, 0x8b44f7af, 12)
    ensures Takes(10, 10, 0xffff5bb1, 17) && Takes(11, 11, 0x895cd7be, 22)
  {
  }

  lemma Takes12()
    ensures Takes(12, 12, 0x6b901122, 7) && Takes(13, 13, 0xfd987193, 12)
    ensures Takes(14, 14, 0xa679438e, 17) && Takes(15, 15, 0x49b40821, 22)
  {
  }

  lemma Takes16()
    ensures Takes(16, 1, 0xf61e2562, 5) && Takes(17, 6, 0xc040b340, 9)
    ensures Takes(18, 11, 0x265e5a51, 14) && Takes(19, 0, 0xe9b6c7aa, 20)
  {
  }

  lemma Takes20()
    ensures Takes(20, 5, 0xd62f105d, 5) && Takes(21, 10, 0x02441453, 9)
    ensures Takes(22, 15, 0xd8a1e681, 14) && Takes(23, 4, 0xe7d3fbc8, 20)
  {
  }

  lemma Takes24()
    ensures Takes(24, 9, 0x21e1cde6, 5) && Takes(25, 14, 0xc33707d6, 9)
    ensures Takes(26, 3, 0xf4d50d87, 14) && Takes(27, 8, 0x455a14ed, 20)
  {
  }

  lemma Takes28()
    ensures Takes(28, 13, 0xa9e3e905, 5) && Takes(29, 2, 0xfcefa3f8, 9)
    ensures Takes(30, 7, 0x676f02d9, 14) && Takes(31, 12, 0x8d2a4c8a, 20)
  {
  }

  lemma Takes32()
    ensures Takes(32, 5, 0xfffa3942, 4) && Takes(33, 8, 0x8771f681, 11)
    ensures Takes(34, 11, 0x6d9d6122, 16) && Takes(35, 14, 0xfde5380c, 23)
  {
  }

  lemma Takes36()
    ensures Takes(36, 1, 0xa4beea44, 4) && Takes(37, 4, 0x4bdecfa9, 11)
    ensures Takes(38, 7, 0xf6bb4b60, 16) && Takes(39, 10, 0xbebfbc70, 23)
  {
  }

  lemma Takes40()
    ensures Takes(40, 13, 0x289b7ec6, 4) && Takes(41, 0, 0xeaa127fa, 11)
    ensures Takes(42, 3, 0xd4ef3085, 16) && Takes(43, 6, 0x04881d05, 23)
  {
  }

  lemma Takes44()
    ensures Takes(44, 9, 0xd9d4d039, 4) && Takes(45, 12, 0xe6db99e5, 11)
    ensures Takes(46, 15, 0x1fa27cf8, 16) && Takes(47, 2, 0xc4ac5665, 23)
  {
  }

  lemma Takes48()
    ensures Takes(48, 0, 0xf4292244, 6) && Takes(49, 7, 0x432aff97, 10)
    ensures Takes(50, 14, 0xab9423a7, 15) && Takes(51, 5, 0xfc93a039, 21)
  {
  }

  lemma Takes52()
    ensures Takes(52, 12, 0x655b59c3, 6) && Takes(53, 3, 0x8f0ccc92, 10)
    ensures Takes(54, 10, 0xffeff47d, 15) && Takes(55, 1, 0x85845dd1, 21)
  {
  }

  lemma Takes56()
    ensures Takes(56, 8, 0x6fa87e4f, 6) && Takes(57, 15, 0xfe2ce6e0, 10)
    ensures Takes(58, 6, 0xa3014314, 15) && Takes(59, 13, 0x4e0811a1, 21)
  {
  }

  lemma Takes60()
    ensures Takes(60, 4, 0xf7537e82, 6) && Takes(61, 11, 0xbd3af235, 10)
    ensures Takes(62, 2, 0x2ad7d2bb, 15) && Takes(63, 9, 0xeb86d391, 21)
  {
  }

  // ---------------------------------------------------------------- the first block

  predicate IsFirst(x: Block) {
    && x[0] == 0x44434241 && x[1] == 0x48474645 && x[2] == 0x4c4b4a49 && x[3] == 0x504f4e4d
    && x[4] == 0x54535251 && x[5] == 0x58575655 && x[6] == 0x62615a59 && x[7] == 0x66656463
    && x[8] == 0x6a696867 && x[9] == 0x6e6d6c6b && x[10] == 0x7271706f && x[11] == 0x76757473
    && x[12] == 0x7a797877 && x[13] == 0x33323130 && x[14] == 0x37363534 && x[15] == 0x00803938
  }

  lemma FirstValues0()
    ensures Yields(0, 0x67452301, 0xefcdab89, 0x98badcfe, 0x10325476, 0x44434241, 0x98badcfe, 0xd76aa478, 7, 0xc6c10796)
    ensures Yields(1, 0x10325476, 0xc6c10796, 0xefcdab89, 0x98badcfe, 0x48474645, 0xdefbdbe8, 0xe8c7b756, 12, 0x99a09999)
    ensures Yields(2, 0x98badcfe, 0x99a09999, 0xc6c10796, 0xefcdab89, 0x4c4b4a49, 0xe6cd2390, 0x242070db, 17, 0x11067980)
    ensures Yields(3, 0xefcdab89, 0x11067980, 0x99a09999, 0xc6c10796, 0x504f4e4d, 0xd7c11f96, 0xc1bdceee, 22, 0x27bce07a)
  {
  }

  lemma FirstValues4()
    ensures Yields(4, 0xc6c10796, 0x27bce07a, 0x11067980, 0x99a09999, 0x54535251, 0x99047981, 0xf57c0faf, 7, 0xf22e6c4e)
    ensures Yields(5, 0x99a09999, 0xf22e6c4e, 0x27bce07a, 0x11067980, 0x58575655, 0x232c71ca, 0x4787c62a, 12, 0xb4ac9218)
    ensures Yields(6, 0x11067980, 0xb4ac9218, 0xf22e6c4e, 0x27bce07a, 0x62615a59, 0xb33c606a, 0xa8304613, 17, 0xa95a2fc0)
    ensures Yields(7, 0x27bce07a, 0xa95a2fc0, 0xb4ac9218, 0xf22e6c4e, 0x66656463, 0xf22c420e, 0xfd469501, 22, 0xa4799506)
  {
  }

  lemma FirstValues8()
    ensures Yields(8, 0xf22e6c4e, 0xa4799506, 0xa95a2fc0, 0xb4ac9218, 0x6a696867, 0xb0dc0718, 0x698098d8, 7, 0x1eb3e7c1)
    ensures Yields(9, 0xb4ac9218, 0x1eb3e7c1, 0xa4799506, 0xa95a2fc0, 0x6e6d6c6b, 0xa5798d00, 0x8b44f7af, 12, 0xa6e70cfe)
    ensures Yields(10, 0xa95a2fc0, 0xa6e70cfe, 0x1eb3e7c1, 0xa4799506, 0x7271706f, 0x06bb95c0, 0xffff5bb1, 17, 0xca27520b)
    ensures Yields(11, 0xa4799506, 0xca27520b, 0xa6e70cfe, 0x1eb3e7c1, 0x76757473, 0x96b7a5ca, 0x895cd7be, 22, 0x8a7612ec)
  {
  }

  lemma FirstValues12()
    ensures Yields(12, 0x1eb3e7c1, 0x8a7612ec, 0xca27520b, 0xa6e70cfe, 0x7a797877, 0xaea71e1a, 0x6b901122, 7, 0x3cbdcd45)
    ensures Yields(13, 0xa6e70cfe, 0x3cbdcd45, 0x8a7612ec, 0xca27520b, 0x33323130, 0xca36124e, 0xfd987193, 12, 0xb8dec763)
    ensures Yields(14, 0xca27520b, 0xb8dec763, 0x3cbdcd45, 0x8a7612ec, 0x37363534, 0x3abcd5cd, 0xa679438e, 17, 0xfa148c8a)
    ensures Yields(15, 0x8a7612ec, 0xfa148c8a, 0xb8dec763, 0x3cbdcd45, 0x00803938, 0xbcbdc547, 0x49b40821, 22, 0x5d38e690)
  {
  }

  lemma FirstValues16()
    ensures Yields(16, 0x3cbdcd45, 0x5d38e690, 0xfa148c8a, 0xb8dec763, 0x48474645, 0x5a18ce88, 0xf61e2562, 5, 0x04b9d52a)
    ensures Yields(17, 0xb8dec763, 0x04b9d52a, 0x5d38e690, 0xfa148c8a, 0x62615a59, 0x0538e61a, 0xc040b340, 9, 0x783002eb)
    ensures Yields(18, 0xfa148c8a, 0x783002eb, 0x04b9d52a, 0x5d38e690, 0x76757473, 0x58b113aa, 0x265e5a51, 14, 0xd3ee3ed1)
    ensures Yields(19, 0x5d38e690, 0xd3ee3ed1, 0x783002eb, 0x04b9d52a, 0x44434241, 0x78a816c1, 0xe9b6c7aa, 20, 0x47ae7c81)
  {
  }

  lemma FirstValues20()
    ensures Yields(20, 0x04b9d52a, 0x47ae7c81, 0xd3ee3ed1, 0x783002eb, 0x58575655, 0xc3ee3c91, 0xd62f105d, 5, 0x2d7d8a3f)
    ensures Yields(21, 0x783002eb, 0x2d7d8a3f, 0x47ae7c81, 0xd3ee3ed1, 0x7271706f, 0x056c4a11, 0x02441453, 9, 0xd1210823)
    ensures Yields(22, 0xd3ee3ed1, 0xd1210823, 0x2d7d8a3f, 0x47ae7c81, 0x00803938, 0x69718a3f, 0xd8a1e681, 14, 0x4b534dc3)
    ensures Yields(23, 0x47ae7c81, 0x4b534dc3, 0xd1210823, 0x2d7d8a3f, 0x54535251, 0xd9510803, 0xe7d3fbc8, 20, 0x75292030)
  {
  }

  lemma FirstValues24()
    ensures Yields(24, 0x2d7d8a3f, 0x75292030, 0x4b534dc3, 0xd1210823, 0x6e6d6c6b, 0x5b7345e0, 0x21e1cde6, 5, 0x9d2a6e33)
    ensures Yields(25, 0xd1210823, 0x9d2a6e33, 0x75292030, 0x4b534dc3, 0x37363534, 0x3d2a6c33, 0xc33707d6, 9, 0x0e8d2e44)
    ensures Yields(26, 0x4b534dc3, 0x0e8d2e44, 0x9d2a6e33, 0x75292030, 0x504f4e4d, 0x8c0b6e03, 0xf4d50d87, 14, 0xd473b564)
    ensures Yields(27, 0x75292030, 0xd473b564, 0x0e8d2e44, 0x9d2a6e33, 0x6a696867, 0x96a72464, 0x455a14ed, 20, 0xf2ff6ea0)
  {
  }

  lemma FirstValues28()
    ensures Yields(28, 0x9d2a6e33, 0xf2ff6ea0, 0xd473b564, 0x0e8d2e44, 0x33323130, 0xd2ffbf20, 0xa9e3e905, 5, 0x9b085fa9)
    ensures Yields(29, 0x0e8d2e44, 0x9b085fa9, 0xf2ff6ea0, 0xd473b564, 0x4c4b4a49, 0xb28c5fa0, 0xfcefa3f8, 9, 0x4400a9bd)
    ensures Yields(30, 0xd473b564, 0x4400a9bd, 0x9b085fa9, 0xf2ff6ea0, 0x66656463, 0x490039a9, 0x676f02d9, 14, 0x5993248f)
    ensures Yields(31, 0xf2ff6ea0, 0x5993248f, 0x4400a9bd, 0x9b085fa9, 0x7a797877, 0x5d00a49d, 0x8d2a4c8a, 20, 0xdd789ecc)
  {
  }

  lemma FirstValues32()
    ensures Yields(32, 0x9b085fa9, 0xdd789ecc, 0x5993248f, 0x4400a9bd, 0x58575655, 0xc0eb13fe, 0xfffa3942, 4, 0x21c8d2b7)
    ensures Yields(33, 0x4400a9bd, 0x21c8d2b7, 0xdd789ecc, 0x5993248f, 0x6a696867, 0xa52368f4, 0x8771f681, 11, 0x1d55a18e)
    ensures Yields(34, 0x5993248f, 0x1d55a18e, 0x21c8d2b7, 0xdd789ecc, 0x76757473, 0xe1e5edf5, 0x6d9d6122, 16, 0x056ec119)
    ensures Yields(35, 0xdd789ecc, 0x056ec119, 0x1d55a18e, 0x21c8d2b7, 0x37363534, 0x39f3b220, 0xfde5380c, 23, 0x1b9504f8)
  {
  }

  lemma FirstValues36()
    ensures Yields(36, 0x21c8d2b7, 0x1b9504f8, 0x056ec119, 0x1d55a18e, 0x48474645, 0x03ae646f, 0xa4beea44, 4, 0x436b7fe9)
    ensures Yields(37, 0x1d55a18e, 0x436b7fe9, 0x1b9504f8, 0x056ec119, 0x54535251, 0x5d90ba08, 0x4bdecfa9, 11, 0x075800c1)
    ensures Yields(38, 0x056ec119, 0x075800c1, 0x436b7fe9, 0x1b9504f8, 0x66656463, 0x5fa67bd0, 0xf6bb4b60, 16, 0xf404c2f6)
    ensures Yields(39, 0x1b9504f8, 0xf404c2f6, 0x075800c1, 0x436b7fe9, 0x7271706f, 0xb037bdde, 0xbebfbc70, 23, 0xcf0341ed)
  {
  }

  lemma FirstValues40()
    ensures Yields(40, 0x436b7fe9, 0xcf0341ed, 0xf404c2f6, 0x075800c1, 0x33323130, 0x3c5f83da, 0x289b7ec6, 4, 0x888e7d8a)
    ensures Yields(41, 0x075800c1, 0x888e7d8a, 0xcf0341ed, 0xf404c2f6, 0x44434241, 0xb389fe91, 0xeaa127fa, 11, 0xbbdaecd8)
    ensures Yields(42, 0xf404c2f6, 0xbbdaecd8, 0x888e7d8a, 0xcf0341ed, 0x504f4e4d, 0xfc57d0bf, 0xd4ef3085, 16, 0xce620273)
    ensures Yields(43, 0xcf0341ed, 0xce620273, 0xbbdaecd8, 0x888e7d8a, 0x62615a59, 0xfd369321, 0x04881d05, 23, 0x047b9419)
  {
  }

  lemma FirstValues44()
    ensures Yields(44, 0x888e7d8a, 0x047b9419, 0xce620273, 0xbbdaecd8, 0x6e6d6c6b, 0x71c37ab2, 0xd9d4d039, 4, 0x2dbee21d)
    ensures Yields(45, 0xbbdaecd8, 0x2dbee21d, 0x047b9419, 0xce620273, 0x7a797877, 0xe7a77477, 0xe6db99e5, 11, 0xe95c3a43)
    ensures Yields(46, 0xce620273, 0xe95c3a43, 0x2dbee21d, 0x047b9419, 0x00803938, 0xc0994c47, 0x1fa27cf8, 16, 0xee46e961)
    ensures Yields(47, 0x047b9419, 0xee46e961, 0xe95c3a43, 0x2dbee21d, 0x4c4b4a49, 0x2aa4313f, 0xc4ac5665, 23, 0xf166f514)
  {
  }

  lemma FirstValues48()
    ensures Yields(48, 0x2dbee21d, 0xf166f514, 0xee46e961, 0xe95c3a43, 0x44434241, 0x19a11cdd, 0xf4292244, 6, 0xe47fd4f3)
    ensures Yields(49, 0xe95c3a43, 0xe47fd4f3, 0xf166f514, 0xee46e961, 0x66656463, 0x049923eb, 0x432aff97, 10, 0xfb887751)
    ensures Yields(50, 0xee46e961, 0xfb887751, 0xe47fd4f3, 0xf166f514, 0x37363534, 0x1be6ab08, 0xab9423a7, 15, 0xf22aedcc)
    ensures Yields(51, 0xf166f514, 0xf22aedcc, 0xfb887751, 0xe47fd4f3, 0x58575655, 0x0022989d, 0xfc93a039, 21, 0x7a13bc5c)
  {
  }

  lemma FirstValues52()
    ensures Yields(52, 0xe47fd4f3, 0x7a13bc5c, 0xf22aedcc, 0xfb887751, 0x7a797877, 0x8c5d5132, 0x655b59c3, 6, 0xa691d430)
    ensures Yields(53, 0xfb887751, 0xa691d430, 0x7a13bc5c, 0xf22aedcc, 0x504f4e4d, 0xd5c66a6f, 0x8f0ccc92, 10, 0x528452f2)
    ensures Yields(54, 0xf22aedcc, 0x528452f2, 0xa691d430, 0x7a13bc5c, 0x7271706f, 0x717d87c3, 0xffeff47d, 15, 0x3fc23df6)
    ensures Yields(55, 0x7a13bc5c, 0x3fc23df6, 0x528452f2, 0xa691d430, 0x48474645, 0x2d6a6d0d, 0x85845dd1, 21, 0xefb0e72f)
  {
  }

  lemma FirstValues56()
    ensures Yields(56, 0xa691d430, 0xefb0e72f, 0x3fc23df6, 0x528452f2, 0x6a696867, 0xd039d2d9, 0x6fa87e4f, 6, 0x27145703)
    ensures Yields(57, 0x528452f2, 0x27145703, 0xefb0e72f, 0x3fc23df6, 0x00803938, 0x088d3024, 0xfe2ce6e0, 10, 0x21a11069)
    ensures Yields(58, 0x3fc23df6, 0x21a11069, 0x27145703, 0xefb0e72f, 0x62615a59, 0x16fb4ffa, 0xa3014314, 15, 0x374fbe79)
    ensures Yields(59, 0xefb0e72f, 0x374fbe79, 0x21a11069, 0x27145703, 0x33323130, 0xde4eae94, 0x4e0811a1, 21, 0x49d9a5b4)
  {
  }

  lemma FirstValues60()
    ensures Yields(60, 0x27145703, 0x49d9a5b4, 0x374fbe79, 0x21a11069, 0x54535251, 0xe89051cf, 0xf7537e82, 6, 0x1cb80f0a)
    ensures Yields(61, 0x21a11069, 0x1cb80f0a, 0x49d9a5b4, 0x374fbe79, 0x76757473, 0x9561ea3a, 0xbd3af235, 10, 0xea3d3eb4)
    ensures Yields(62, 0x374fbe79, 0xea3d3eb4, 0x1cb80f0a, 0x49d9a5b4, 0x4c4b4a49, 0xe28771f5, 0x2ad7d2bb, 15, 0x10f68731)
    ensures Yields(63, 0x49d9a5b4, 0x10f68731, 0xea3d3eb4, 0x1cb80f0a, 0x6e6d6c6b, 0x19cac941, 0xeb86d391, 21, 0xef2e3a46)
  {
  }

  lemma First0(s: State, x: Block)
    requires IsFirst(x) && Steps(s, x, 0) == State(0x67452301, 0xefcdab89, 0x98badcfe, 0x10325476)
    ensures Steps(s, x, 16) == State(0x3cbdcd45, 0x5d38e690, 0xfa148c8a, 0xb8dec763)
  {
    hide Yields, Takes, Steps;
    AllSteps(s, x);
    Takes0();
    Takes4();
    Takes8();
    Takes12();
    FirstValues0();
    FirstValues4();
    FirstValues8();
    FirstValues12();
  }

  lemma First16(s: State, x: Block)
    requires IsFirst(x) && Steps(s, x, 16) == State(0x3cbdcd45, 0x5d38e690, 0xfa148c8a, 0xb8dec763)
    ensures Steps(s, x, 32) == State(0x9b085fa9, 0xdd789ecc, 0x5993248f, 0x4400a9bd)
  {
    hide Yields, Takes, Steps;
    AllSteps(s, x);
    Takes16();
    Takes20();
    Takes24();
    Takes28();
    FirstValues16();
    FirstValues20();
    FirstValues24();
    FirstValues28();
  }

  lemma First32(s: State, x: Block)
    requires IsFirst(x) && Steps(s, x, 32) == State(0x9b085fa9, 0xdd789ecc, 0x5993248f, 0x4400a9bd)
    ensures Steps(s, x, 48) == State(0x2dbee21d, 0xf166f514, 0xee46e961, 0xe95c3a43)
  {
    hide Yields, Takes, Steps;
    AllSteps(s, x);
    Takes32();
    Takes36();
    Takes40();
    Takes44();
    FirstValues32();
    FirstValues36();
    FirstValues40();
    FirstValues44();
  }

  lemma First48(s: State, x: Block)
    requires IsFirst(x) && Steps(s, x, 48) == State(0x2dbee21d, 0xf166f514, 0xee46e961, 0xe95c3a43)
    ensures Steps(s, x, 64) == State(0x1cb80f0a, 0xef2e3a46, 0x10f68731, 0xea3d3eb4)
  {
    hide Yields, Takes, Steps;
    AllSteps(s, x);
    Takes48();
    Takes52();
    Takes56();
    Takes60();
    FirstValues48();
    FirstValues52();
    FirstValues56();
    FirstValues60();
  }

  // ---------------------------------------------------------------- the second block

  predicate IsSecond(x: Block) {
    && x[0] == 0x00000000 && x[1] == 0x00000000 && x[2] == 0x00000000 && x[3] == 0x00000000
    && x[4] == 0x00000000 && x[5] == 0x00000000 && x[6] == 0x00000000 && x[7] == 0x00000000
    && x[8] == 0x00000000 && x[9] == 0x00000000 && x[10] == 0x00000000 && x[11] == 0x00000000
    && x[12] == 0x00000000 && x[13] == 0x00000000 && x[14] == 0x000001f0 && x[15] == 0x00000000
  }

  lemma SecondValues0()
    ensures Yields(0, 0x83fd320b, 0xdefbe5cf, 0xa9b1642f, 0xfa6f932a, 0x00000000, 0xa8b5762f, 0xd76aa478, 7, 0xeda23ed1)
    ensures Yields(1, 0xfa6f932a, 0xeda23ed1, 0xdefbe5cf, 0xa9b1642f, 0x00000000, 0xccb364ef, 0xe8c7b756, 12, 0x989939cf)
    ensures Yields(2, 0xa9b1642f, 0x989939cf, 0xeda23ed1, 0xdefbe5cf, 0x00000000, 0xcee2fcc1, 0x242070db, 17, 0x3c307338)
    ensures Yields(3, 0xdefbe5cf, 0x3c307338, 0x989939cf, 0xeda23ed1, 0x00000000, 0xd9923dc9, 0xc1bdceee, 22, 0xddcf0634)
  {
  }

  lemma SecondValues4()
    ensures Yields(4, 0xeda23ed1, 0xddcf0634, 0x3c307338, 0x989939cf, 0x00000000, 0x1c103bfb, 0xf57c0faf, 7, 0x75144433)
    ensures Yields(5, 0x989939cf, 0x75144433, 0xddcf0634, 0x3c307338, 0x00000000, 0x5d243738, 0x4787c62a, 12, 0xc8875807)
    ensures Yields(6, 0x3c307338, 0xc8875807, 0x75144433, 0xddcf0634, 0x00000000, 0x554c4633, 0xa8304613, 17, 0xc783cb60)
    ensures Yields(7, 0xddcf0634, 0xc783cb60, 0xc8875807, 0x75144433, 0x00000000, 0xf0974c13, 0xfd469501, 22, 0x99b6b699)
  {
  }

  lemma SecondValues8()
    ensures Yields(8, 0x75144433, 0x99b6b699, 0xc783cb60, 0xc8875807, 0x00000000, 0xc183ca06, 0x698098d8, 7, 0xa60a3f69)
    ensures Yields(9, 0xc8875807, 0xa60a3f69, 0x99b6b699, 0xc783cb60, 0x00000000, 0xc183f609, 0x8b44f7af, 12, 0xaa6630be)
    ensures Yields(10, 0xc783cb60, 0xaa6630be, 0xa60a3f69, 0x99b6b699, 0x00000000, 0xb392b629, 0xffff5bb1, 17, 0x64db26e9)
    ensures Yields(11, 0x99b6b699, 0x64db26e9, 0xaa6630be, 0xa60a3f69, 0x00000000, 0xa24239a8, 0x895cd7be, 22, 0x64cc7c5a)
  {
  }

  lemma SecondValues12()
    ensures Yields(12, 0xa60a3f69, 0x64cc7c5a, 0x64db26e9, 0xaa6630be, 0x00000000, 0xeeea24ec, 0x6b901122, 7, 0xa70737da)
    ensures Yields(13, 0xaa6630be, 0xa70737da, 0x64cc7c5a, 0x64db26e9, 0x00000000, 0x64dc347b, 0xfd987193, 12, 0x5473f8a7)
    ensures Yields(14, 0x64db26e9, 0x5473f8a7, 0xa70737da, 0x64cc7c5a, 0x000001f0, 0x248f34da, 0xa679438e, 17, 0x96f6586e)
    ensures Yields(15, 0x64cc7c5a, 0x96f6586e, 0x5473f8a7, 0xa70737da, 0x00000000, 0x35737fb6, 0x49b40821, 22, 0xa36f556f)
  {
  }

  lemma SecondValues16()
    ensures Yields(16, 0xa70737da, 0xa36f556f, 0x96f6586e, 0x5473f8a7, 0x00000000, 0x82e7506f, 0xf61e2562, 5, 0xa5050ad3)
    ensures Yields(17, 0x5473f8a7, 0xa5050ad3, 0xa36f556f, 0x96f6586e, 0x00000000, 0xa50d0d43, 0xc040b340, 9, 0x28776046)
    ensures Yields(18, 0x96f6586e, 0x28776046, 0xa5050ad3, 0xa36f556f, 0x00000000, 0x24674ad6, 0x265e5a51, 14, 0x27dcd8b4)
    ensures Yields(19, 0xa36f556f, 0x27dcd8b4, 0x28776046, 0xa5050ad3, 0x00000000, 0x2d766894, 0xe9b6c7aa, 20, 0x82b8827c)
  {
  }

  lemma SecondValues20()
    ensures Yields(20, 0xa5050ad3, 0x82b8827c, 0x27dcd8b4, 0x28776046, 0x00000000, 0x07b898f4, 0xd62f105d, 5, 0xe04f070c)
    ensures Yields(21, 0x28776046, 0xe04f070c, 0x82b8827c, 0x27dcd8b4, 0x00000000, 0xa06c024c, 0x02441453, 9, 0x2f3cd2a2)
    ensures Yields(22, 0x27dcd8b4, 0x2f3cd2a2, 0xe04f070c, 0x82b8827c, 0x00000000, 0x627f8720, 0xd8a1e681, 14, 0xc0d22b61)
    ensures Yields(23, 0x82b8827c, 0xc0d22b61, 0x2f3cd2a2, 0xe04f070c, 0x00000000, 0xcf72d3a2, 0xe7d3fbc8, 20, 0xdf35cb56)
  {
  }

  lemma SecondValues24()
    ensures Yields(24, 0xe04f070c, 0xdf35cb56, 0xc0d22b61, 0x2f3cd2a2, 0x00000000, 0xcff6eb43, 0x21e1cde6, 5, 0x242dd210)
    ensures Yields(25, 0x2f3cd2a2, 0x242dd210, 0xdf35cb56, 0xc0d22b61, 0x000001f0, 0x1f25c216, 0xc33707d6, 9, 0x576ace33)
    ensures Yields(26, 0xc0d22b61, 0x576ace33, 0x242dd210, 0xdf35cb56, 0x00000000, 0x7728da12, 0xf4d50d87, 14, 0x5c295967)
    ensures Yields(27, 0xdf35cb56, 0x5c295967, 0x576ace33, 0x242dd210, 0x00000000, 0x576b5c23, 0x455a14ed, 20, 0x2291191a)
  {
  }

  lemma SecondValues28()
    ensures Yields(28, 0x242dd210, 0x2291191a, 0x5c295967, 0x576ace33, 0x00000000, 0x0a011956, 0xa9e3e905, 5, 0x24eba695)
    ensures Yields(29, 0x576ace33, 0x24eba695, 0x2291191a, 0x5c295967, 0x00000000, 0x26b9001d, 0xfcefa3f8, 9, 0x4bd0378b)
    ensures Yields(30, 0x5c295967, 0x4bd0378b, 0x24eba695, 0x2291191a, 0x00000000, 0x06fab78f, 0x676f02d9, 14, 0x10c42a2f)
    ensures Yields(31, 0x2291191a, 0x10c42a2f, 0x4bd0378b, 0x24eba695, 0x00000000, 0x4bd0330f, 0x8d2a4c8a, 20, 0x9c03e2e8)
  {
  }

  lemma SecondValues32()
    ensures Yields(32, 0x24eba695, 0x9c03e2e8, 0x10c42a2f, 0x4bd0378b, 0x00000000, 0xc717ff4c, 0xfffa3942, 4, 0x5be1d526)
    ensures Yields(33, 0x4bd0378b, 0x5be1d526, 0x9c03e2e8, 0x10c42a2f, 0x00000000, 0xd7261de1, 0x8771f681, 11, 0x9e414279)
    ensures Yields(34, 0x10c42a2f, 0x9e414279, 0x5be1d526, 0x9c03e2e8, 0x00000000, 0x59a375b7, 0x6d9d6122, 16, 0x9f4a1a7e)
    ensures Yields(35, 0x9c03e2e8, 0x9f4a1a7e, 0x9e414279, 0x5be1d526, 0x000001f0, 0x5aea8d21, 0xfde5380c, 23, 0xa2448453)
  {
  }

  lemma SecondValues36()
    ensures Yields(36, 0x5be1d526, 0xa2448453, 0x9f4a1a7e, 0x9e414279, 0x00000000, 0xa34fdc54, 0xa4beea44, 4, 0xe14e403d)
    ensures Yields(37, 0x9e414279, 0xe14e403d, 0xa2448453, 0x9f4a1a7e, 0x00000000, 0xdc40de10, 0x4bdecfa9, 11, 0xe8cfd670)
    ensures Yields(38, 0x9f4a1a7e, 0xe8cfd670, 0xe14e403d, 0xa2448453, 0x00000000, 0xabc5121e, 0xf6bb4b60, 16, 0x60cc183a)
    ensures Yields(39, 0xa2448453, 0x60cc183a, 0xe8cfd670, 0xe14e403d, 0x00000000, 0x694d8e77, 0xbebfbc70, 23, 0xfe314121)
  {
  }

  lemma SecondValues40()
    ensures Yields(40, 0xe14e403d, 0xfe314121, 0x60cc183a, 0xe8cfd670, 0x00000000, 0x76328f6b, 0x289b7ec6, 4, 0xfff62809)
    ensures Yields(41, 0xe8cfd670, 0xfff62809, 0xfe314121, 0x60cc183a, 0x00000000, 0x610b7112, 0xeaa127fa, 11, 0xe37209ac)
    ensures Yields(42, 0x60cc183a, 0xe37209ac, 0xfff62809, 0xfe314121, 0x00000000, 0xe2b56084, 0xd4ef3085, 16, 0x8cb5221c)
    ensures Yields(43, 0xfe314121, 0x8cb5221c, 0xe37209ac, 0xfff62809, 0x00000000, 0x903103b9, 0x04881d05, 23, 0x7c7e974c)
  {
  }

  lemma SecondValues44()
    ensures Yields(44, 0xfff62809, 0x7c7e974c, 0x8cb5221c, 0xe37209ac, 0x00000000, 0x13b9bcfc, 0xd9d4d039, 4, 0x54c9eb3a)
    ensures Yields(45, 0xe37209ac, 0x54c9eb3a, 0x7c7e974c, 0x8cb5221c, 0x00000000, 0xa4025e6a, 0xe6db99e5, 11, 0xd4d9c6ac)
    ensures Yields(46, 0x8cb5221c, 0xd4d9c6ac, 0x54c9eb3a, 0x7c7e974c, 0x00000000, 0xfc6ebada, 0x1fa27cf8, 16, 0x2ec86f72)
    ensures Yields(47, 0x7c7e974c, 0x2ec86f72, 0xd4d9c6ac, 0x54c9eb3a, 0x00000000, 0xaed842e4, 0xc4ac5665, 23, 0x79c0710a)
  {
  }

  lemma SecondValues48()
    ensures Yields(48, 0x54c9eb3a, 0x79c0710a, 0x2ec86f72, 0xd4d9c6ac, 0x00000000, 0x552e1629, 0xf4292244, 6, 0x02095af1)
    ensures Yields(49, 0xd4d9c6ac, 0x02095af1, 0x79c0710a, 0x2ec86f72, 0x00000000, 0xaaffabf7, 0x432aff97, 10, 0x13d245fd)
    ensures Yields(50, 0x2ec86f72, 0x13d245fd, 0x02095af1, 0x79c0710a, 0x000001f0, 0x95f6950c, 0xab9423a7, 15, 0xa8dcfe26)
    ensures Yields(51, 0x79c0710a, 0xa8dcfe26, 0x13d245fd, 0x02095af1, 0x00000000, 0xee2cbad3, 0xfc93a039, 21, 0x2ba98e3f)
  {
  }

  lemma SecondValues52()
    ensures Yields(52, 0x02095af1, 0x2ba98e3f, 0xa8dcfe26, 0x13d245fd, 0x00000000, 0x47714019, 0x655b59c3, 6, 0xe126c1aa)
    ensures Yields(53, 0x13d245fd, 0xe126c1aa, 0x2ba98e3f, 0xa8dcfe26, 0x00000000, 0xdc8e4fc4, 0x8f0ccc92, 10, 0x96b00fa7)
    ensures Yields(54, 0xa8dcfe26, 0x96b00fa7, 0xe126c1aa, 0x2ba98e3f, 0x00000000, 0x37d0be4d, 0xffeff47d, 15, 0x6f287ff5)
    ensures Yields(55, 0x2ba98e3f, 0x6f287ff5, 0x96b00fa7, 0xe126c1aa, 0x00000000, 0xe9497052, 0x85845dd1, 21, 0xfb7bcee0)
  {
  }

  lemma SecondValues56()
    ensures Yields(56, 0xe126c1aa, 0xfb7bcee0, 0x6f287ff5, 0x96b00fa7, 0x00000000, 0x9457810d, 0x6fa87e4f, 6, 0x452c1099)
    ensures Yields(57, 0x96b00fa7, 0x452c1099, 0xfb7bcee0, 0x6f287ff5, 0x00000000, 0x2e845e7b, 0xfe2ce6e0, 10, 0xca801ba6)
    ensures Yields(58, 0x6f287ff5, 0xca801ba6, 0x452c1099, 0xfb7bcee0, 0x00000000, 0x8ba82b26, 0xa3014314, 15, 0xc197ea8e)
    ensures Yields(59, 0xfb7bcee0, 0xc197ea8e, 0xca801ba6, 0x452c1099, 0x00000000, 0x3157f448, 0x4e0811a1, 21, 0x5ac74608)
  {
  }

  lemma SecondValues60()
    ensures Yields(60, 0x452c1099, 0x5ac74608, 0xc197ea8e, 0xca801ba6, 0x00000000, 0xbe680cd7, 0xf7537e82, 6, 0x14ae42c6)
    ensures Yields(61, 0xca801ba6, 0x14ae42c6, 0x5ac74608, 0xc197ea8e, 0x00000000, 0x642911ff, 0xbd3af235, 10, 0xa52dae75)
    ensures Yields(62, 0xc197ea8e, 0xa52dae75, 0x14ae42c6, 0x5ac74608, 0x00000000, 0xb193fd31, 0x2ad7d2bb, 15, 0x826afd76)
    ensures Yields(63, 0x5ac74608, 0x826afd76, 0xa52dae75, 0x14ae42c6, 0x00000000, 0x4e56530a, 0xeb86d391, 21, 0x16dd9203)
  {
  }

  lemma Second0(s: State, x: Block)
    requires IsSecond(x) && Steps(s, x, 0) == State(0x83fd320b, 0xdefbe5cf, 0xa9b1642f, 0xfa6f932a)
    ensures Steps(s, x, 16) == State(0xa70737da, 0xa36f556f, 0x96f6586e, 0x5473f8a7)
  {
    hide Yields, Takes, Steps;
    AllSteps(s, x);
    Takes0();
    Takes4();
    Takes8();
    Takes12();
    SecondValues0();
    SecondValues4();
    SecondValues8();
    SecondValues12();
  }

  lemma Second16(s: State, x: Block)
    requires IsSecond(x) && Steps(s, x, 16) == State(0xa70737da, 0xa36f556f, 0x96f6586e, 0x5473f8a7)
    ensures Steps(s, x, 32) == State(0x24eba695, 0x9c03e2e8, 0x10c42a2f, 0x4bd0378b)
  {
    hide Yields, Takes, Steps;
    AllSteps(s, x);
    Takes16();
    Takes20();
    Takes24();
    Takes28();
    SecondValues16();
    SecondValues20();
    SecondValues24();
    SecondValues28();
  }

  lemma Second32(s: State, x: Block)
    requires IsSecond(x) && Steps(s, x, 32) == State(0x24eba695, 0x9c03e2e8, 0x10c42a2f, 0x4bd0378b)
    ensures Steps(s, x, 48) == State(0x54c9eb3a, 0x79c0710a, 0x2ec86f72, 0xd4d9c6ac)
  {
    hide Yields, Takes, Steps;
    AllSteps(s, x);
    Takes32();
    Takes36();
    Takes40();
    Takes44();
    SecondValues32();
    SecondValues36();
    SecondValues40();
    SecondValues44();
  }

  lemma Second48(s: State, x: Block)
    requires IsSecond(x) && Steps(s, x, 48) == State(0x54c9eb3a, 0x79c0710a, 0x2ec86f72, 0xd4d9c6ac)
    ensures Steps(s, x, 64) == State(0x14ae42c6, 0x16dd9203, 0x826afd76, 0xa52dae75)
  {
    hide Yields, Takes, Steps;
    AllSteps(s, x);
    Takes48();
    Takes52();
    Takes56();
    Takes60();
    SecondValues48();
    SecondValues52();
    SecondValues56();
    SecondValues60();
  }

  // ---------------------------------------------------------------- the message

  /** The letters, the small letters, the digits. */
  function Alphanumerics(): (m: seq<byte>)
    ensures |m| == 62
  {
    seq(62, i requires 0 <= i < 62 => (if i < 26 then 65 + i else if i < 52 then 71 + i else i - 4) as byte)
  }

  /** Byte j of the message behind its padding: a one bit, and 496 as the length. */
  function PaddedByte(j: nat): byte {
    if j < 26 then (65 + j) as byte else if j < 52 then (71 + j) as byte else if j < 62 then (j - 4) as byte
    else if j == 62 then 0x80 else if j == 120 then 0xf0 else if j == 121 then 0x01 else 0
  }

  lemma LengthIs()
    ensures LowFirst(496, 8) == [0xf0, 0x01, 0, 0, 0, 0, 0, 0]
  {
    NoLength(6);
    assert LowFirst(1, 7) == [1] + LowFirst(0, 6);
    assert LowFirst(496, 8) == [(496 % 256) as byte] + LowFirst(1, 7);
  }

  lemma {:induction false} NoLength(k: nat)
    ensures LowFirst(0, k) == Zeros(k)
  {
    if k > 0 {
      NoLength(k - 1);
    }
  }

  lemma PaddedIs()
    ensures |Padded(Alphanumerics())| == 128
    ensures forall j | 0 <= j < 128 :: Padded(Alphanumerics())[j] == PaddedByte(j)
  {
    hide LowFirst;
    LengthIs();
    assert Gap(62) == 57;
  }

  function PaddedWord(j: nat): word {
    Le(PaddedByte(j), PaddedByte(j + 1), PaddedByte(j + 2), PaddedByte(j + 3))
  }

  lemma WordsAre(m: seq<byte>, from: nat, k: nat)
    requires |m| == 128 && (forall j | 0 <= j < 128 :: m[j] == PaddedByte(j)) && k < 16 && (from == 0 || from == 64)
    ensures BlockAt(m[from..from + 64])[k] == PaddedWord(from + 4 * k)
  {
    hide PaddedByte, Le;
  }

  lemma FirstWords0()
    ensures PaddedWord(0) == 0x44434241
    ensures PaddedWord(4) == 0x48474645
  {
  }

  lemma FirstWords2()
    ensures PaddedWord(8) == 0x4c4b4a49
    ensures PaddedWord(12) == 0x504f4e4d
  {
  }

  lemma FirstWords4()
    ensures PaddedWord(16) == 0x54535251
    ensures PaddedWord(20) == 0x58575655
  {
  }

  lemma FirstWords6()
    ensures PaddedWord(24) == 0x62615a59
    ensures PaddedWord(28) == 0x66656463
  {
  }

  lemma FirstWords8()
    ensures PaddedWord(32) == 0x6a696867
    ensures PaddedWord(36) == 0x6e6d6c6b
  {
  }

  lemma FirstWords10()
    ensures PaddedWord(40) == 0x7271706f
    ensures PaddedWord(44) == 0x76757473
  {
  }

  lemma FirstWords12()
    ensures PaddedWord(48) == 0x7a797877
    ensures PaddedWord(52) == 0x33323130
  {
  }

  lemma FirstWords14()
    ensures PaddedWord(56) == 0x37363534
    ensures PaddedWord(60) == 0x00803938
  {
  }

  lemma FirstIs(m: seq<byte>)
    requires |m| == 128 && forall j | 0 <= j < 128 :: m[j] == PaddedByte(j)
    ensures IsFirst(BlockAt(m[0..64]))
  {
    hide PaddedByte, PaddedWord, BlockAt;
    WordsAre(m, 0, 0);
    WordsAre(m, 0, 1);
    WordsAre(m, 0, 2);
    WordsAre(m, 0, 3);
    WordsAre(m, 0, 4);
    WordsAre(m, 0, 5);
    WordsAre(m, 0, 6);
    WordsAre(m, 0, 7);
    WordsAre(m, 0, 8);
    WordsAre(m, 0, 9);
    WordsAre(m, 0, 10);
    WordsAre(m, 0, 11);
    WordsAre(m, 0, 12);
    WordsAre(m, 0, 13);
    WordsAre(m, 0, 14);
    WordsAre(m, 0, 15);
    FirstWords0();
    FirstWords2();
    FirstWords4();
    FirstWords6();
    FirstWords8();
    FirstWords10();
    FirstWords12();
    FirstWords14();
  }

  lemma SecondWords0()
    ensures PaddedWord(64) == 0x00000000
    ensures PaddedWord(68) == 0x00000000
  {
  }

  lemma SecondWords2()
    ensures PaddedWord(72) == 0x00000000
    ensures PaddedWord(76) == 0x00000000
  {
  }

  lemma SecondWords4()
    ensures PaddedWord(80) == 0x00000000
    ensures PaddedWord(84) == 0x00000000
  {
  }

  lemma SecondWords6()
    ensures PaddedWord(88) == 0x00000000
    ensures PaddedWord(92) == 0x00000000
  {
  }

  lemma SecondWords8()
    ensures PaddedWord(96) == 0x00000000
    ensures PaddedWord(100) == 0x00000000
  {
  }

  lemma SecondWords10()
    ensures PaddedWord(104) == 0x00000000
    ensures PaddedWord(108) == 0x00000000
  {
  }

  lemma SecondWords12()
    ensures PaddedWord(112) == 0x00000000
    ensures PaddedWord(116) == 0x00000000
  {
  }

  lemma SecondWords14()
    ensures PaddedWord(120) == 0x000001f0
    ensures PaddedWord(124) == 0x00000000
  {
  }

  lemma SecondIs(m: seq<byte>)
    requires |m| == 128 && forall j | 0 <= j < 128 :: m[j] == PaddedByte(j)
    ensures IsSecond(BlockAt(m[64..128]))
  {
    hide PaddedByte, PaddedWord, BlockAt;
    WordsAre(m, 64, 0);
    WordsAre(m, 64, 1);
    WordsAre(m, 64, 2);
    WordsAre(m, 64, 3);
    WordsAre(m, 64, 4);
    WordsAre(m, 64, 5);
    WordsAre(m, 64, 6);
    WordsAre(m, 64, 7);
    WordsAre(m, 64, 8);
    WordsAre(m, 64, 9);
    WordsAre(m, 64, 10);
    WordsAre(m, 64, 11);
    WordsAre(m, 64, 12);
    WordsAre(m, 64, 13);
    WordsAre(m, 64, 14);
    WordsAre(m, 64, 15);
    SecondWords0();
    SecondWords2();
    SecondWords4();
    SecondWords6();
    SecondWords8();
    SecondWords10();
    SecondWords12();
    SecondWords14();
  }

  lemma CompressIs(s: State, x: Block, t: State)
    requires Steps(s, x, 64) == t
    ensures Compress(s, x) == State(Sum(t.a, s.a), Sum(t.b, s.b), Sum(t.c, s.c), Sum(t.d, s.d))
  {
    hide Steps, Sum;
  }

  lemma FirstSums()
    ensures Sum(0x1cb80f0a, 0x67452301) == 0x83fd320b
    ensures Sum(0xef2e3a46, 0xefcdab89) == 0xdefbe5cf
    ensures Sum(0x10f68731, 0x98badcfe) == 0xa9b1642f
    ensures Sum(0xea3d3eb4, 0x10325476) == 0xfa6f932a
  {
  }

  lemma FirstBlock(s: State, x: Block)
    requires IsFirst(x) && s == State(0x67452301, 0xefcdab89, 0x98badcfe, 0x10325476)
    ensures Compress(s, x) == State(0x83fd320b, 0xdefbe5cf, 0xa9b1642f, 0xfa6f932a)
  {
    hide Steps, Compress, IsFirst;
    assert Steps(s, x, 0) == s by {
      NoSteps(s, x);
    }
    First0(s, x);
    First16(s, x);
    First32(s, x);
    First48(s, x);
    CompressIs(s, x, State(0x1cb80f0a, 0xef2e3a46, 0x10f68731, 0xea3d3eb4));
    FirstSums();
  }

  lemma SecondSums()
    ensures Sum(0x14ae42c6, 0x83fd320b) == 0x98ab74d1
    ensures Sum(0x16dd9203, 0xdefbe5cf) == 0xf5d977d2
    ensures Sum(0x826afd76, 0xa9b1642f) == 0x2c1c61a5
    ensures Sum(0xa52dae75, 0xfa6f932a) == 0x9f9d419f
  {
  }

  lemma SecondBlock(s: State, x: Block)
    requires IsSecond(x) && s == State(0x83fd320b, 0xdefbe5cf, 0xa9b1642f, 0xfa6f932a)
    ensures Compress(s, x) == State(0x98ab74d1, 0xf5d977d2, 0x2c1c61a5, 0x9f9d419f)
  {
    hide Steps, Compress, IsSecond;
    assert Steps(s, x, 0) == s by {
      NoSteps(s, x);
    }
    Second0(s, x);
    Second16(s, x);
    Second32(s, x);
    Second48(s, x);
    CompressIs(s, x, State(0x14ae42c6, 0x16dd9203, 0x826afd76, 0xa52dae75));
    SecondSums();
  }

  lemma NoSteps(s: State, x: Block)
    ensures Steps(s, x, 0) == s
  {
  }

  lemma TwoBlocks(s: State, m: seq<byte>)
    requires |m| == 128
    ensures Chain(s, m) == Chain(Compress(Compress(s, BlockAt(m[0..64])), BlockAt(m[64..128])), [])
  {
    hide Compress, BlockAt;
    assert m[..64] == m[0..64] && m[64..][..64] == m[64..128] && m[64..][64..] == [];
  }

  lemma NoBlock(s: State)
    ensures Chain(s, []) == s
  {
  }

  lemma OutputIs()
    ensures WordBytes(0x98ab74d1) == [0xd1, 0x74, 0xab, 0x98]
    ensures WordBytes(0xf5d977d2) == [0xd2, 0x77, 0xd9, 0xf5]
    ensures WordBytes(0x2c1c61a5) == [0xa5, 0x61, 0x1c, 0x2c]
    ensures WordBytes(0x9f9d419f) == [0x9f, 0x41, 0x9d, 0x9f]
  {
  }

  /** RFC 1321, section A.5: the digest of the letters, the small letters and the digits. */
  lemma AlphanumericsDigest()
    ensures Md5(Alphanumerics()) ==
              [0xd1, 0x74, 0xab, 0x98, 0xd2, 0x77, 0xd9, 0xf5,
               0xa5, 0x61, 0x1c, 0x2c, 0x9f, 0x41, 0x9d, 0x9f]
  {
    hide Padded, Alphanumerics, Compress, BlockAt, Chain, WordBytes, PaddedByte, IsFirst, IsSecond;
    PaddedIs();
    var m := Padded(Alphanumerics());
    FirstIs(m);
    SecondIs(m);
    FirstBlock(INITIAL, BlockAt(m[0..64]));
    SecondBlock(State(0x83fd320b, 0xdefbe5cf, 0xa9b1642f, 0xfa6f932a), BlockAt(m[64..128]));
    TwoBlocks(INITIAL, m);
    NoBlock(State(0x98ab74d1, 0xf5d977d2, 0x2c1c61a5, 0x9f9d419f));
    OutputIs();
  }

}