/**
 The value that lookup3.c itself states for a key of thirty bytes, computed by the definitions of
 JenkinsSpec: two blocks through mix, and six bytes through final.
 */
module JenkinsVector {
  import opened Words
  import opened JenkinsSpec

  /** "Four score and seven years ago" */
  function FourScore(): (m: seq<byte>)
    ensures |m| == 30
  {
    [0x46, 0x6f, 0x75, 0x72, 0x20, 0x73, 0x63, 0x6f, 0x72, 0x65, 0x20, 0x61,
     0x6e, 0x64, 0x20, 0x73, 0x65, 0x76, 0x65, 0x6e, 0x20, 0x79, 0x65, 0x61,
     0x72, 0x73, 0x20, 0x61, 0x67, 0x6f]
  }

  lemma Sums(s: Abc, p: seq<byte>, w0: word, w1: word, w2: word)
    requires |p| == 12 && WordAt(p, 0) == w0 && WordAt(p, 4) == w1 && WordAt(p, 8) == w2
    ensures AddIn(s, p) == Abc(Sum(s.a, w0), Sum(s.b, w1), Sum(s.c, w2))
  {
    hide Sum, WordAt;
  }

  lemma FirstWords()
    ensures Le(0x46, 0x6f, 0x75, 0x72) == 0x72756f46 && Sum(0xdeadbf0d, 0x72756f46) == 0x51232e53
    ensures Le(0x20, 0x73, 0x63, 0x6f) == 0x6f637320 && Sum(0xdeadbf0d, 0x6f637320) == 0x4e11322d
    ensures Le(0x72, 0x65, 0x20, 0x61) == 0x61206572 && Sum(0xdeadbf0d, 0x61206572) == 0x3fce247f
  {
  }

  lemma FirstLinesA()
    ensures MixLine(Abc(0x51232e53, 0x4e11322d, 0x3fce247f), 4) == Abc(0x4e11322d, 0x8ddf56ac, 0xedb74e27)
    ensures MixLine(Abc(0x4e11322d, 0x8ddf56ac, 0xedb74e27), 6) == Abc(0x8ddf56ac, 0x7b96a4d3, 0x0d8a6dfd)
    ensures MixLine(Abc(0x8ddf56ac, 0x7b96a4d3, 0x0d8a6dfd), 8) == Abc(0x7b96a4d3, 0x892112d0, 0x0a3915a2)
  {
  }

  lemma FirstLinesB()
    ensures MixLine(Abc(0x7b96a4d3, 0x892112d0, 0x0a3915a2), 16) == Abc(0x892112d0, 0x935a2872, 0x64ff8508)
    ensures MixLine(Abc(0x892112d0, 0x935a2872, 0x64ff8508), 19) == Abc(0x935a2872, 0xf859ad7a, 0x0c62aa34)
    ensures MixLine(Abc(0x935a2872, 0xf859ad7a, 0x0c62aa34), 4) == Abc(0xf859ad7a, 0x04bc57ae, 0x40dddd7e)
  {
  }

  lemma FirstBlock(s: Abc, p: seq<byte>)
    requires s == Abc(0xdeadbf0d, 0xdeadbf0d, 0xdeadbf0d)
    requires p == [0x46, 0x6f, 0x75, 0x72, 0x20, 0x73, 0x63, 0x6f, 0x72, 0x65, 0x20, 0x61]
    ensures Mix(AddIn(s, p)) == Abc(0xf859ad7a, 0x04bc57ae, 0x40dddd7e)
  {
    hide MixLine, Sum, Le, AddIn;
    FirstWords();
    Sums(s, p, 0x72756f46, 0x6f637320, 0x61206572);
    FirstLinesA();
    FirstLinesB();
  }

  lemma SecondWords()
    ensures Le(0x6e, 0x64, 0x20, 0x73) == 0x7320646e && Sum(0xf859ad7a, 0x7320646e) == 0x6b7a11e8
    ensures Le(0x65, 0x76, 0x65, 0x6e) == 0x6e657665 && Sum(0x04bc57ae, 0x6e657665) == 0x7321ce13
    ensures Le(0x20, 0x79, 0x65, 0x61) == 0x61657920 && Sum(0x40dddd7e, 0x61657920) == 0xa243569e
  {
  }

  lemma SecondLinesA()
    ensures MixLine(Abc(0x6b7a11e8, 0x7321ce13, 0xa243569e), 4) == Abc(0x7321ce13, 0x156524b1, 0xed03d2a0)
    ensures MixLine(Abc(0x7321ce13, 0x156524b1, 0xed03d2a0), 6) == Abc(0x156524b1, 0x0268f751, 0xc6e95348)
    ensures MixLine(Abc(0x156524b1, 0x0268f751, 0xc6e95348), 8) == Abc(0x0268f751, 0xc9524a99, 0xa72899af)
  {
  }

  lemma SecondLinesB()
    ensures MixLine(Abc(0x0268f751, 0xc9524a99, 0xa72899af), 16) == Abc(0xc9524a99, 0x707ae448, 0xc2effa8a)
    ensures MixLine(Abc(0xc9524a99, 0x707ae448, 0xc2effa8a), 19) == Abc(0x707ae448, 0x336aded2, 0xd2344770)
    ensures MixLine(Abc(0x707ae448, 0x336aded2, 0xd2344770), 4) == Abc(0x336aded2, 0x059f2642, 0xbd02ebd5)
  {
  }

  lemma SecondBlock(s: Abc, p: seq<byte>)
    requires s == Abc(0xf859ad7a, 0x04bc57ae, 0x40dddd7e)
    requires p == [0x6e, 0x64, 0x20, 0x73, 0x65, 0x76, 0x65, 0x6e, 0x20, 0x79, 0x65, 0x61]
    ensures Mix(AddIn(s, p)) == Abc(0x336aded2, 0x059f2642, 0xbd02ebd5)
  {
    hide MixLine, Sum, Le, AddIn;
    SecondWords();
    Sums(s, p, 0x7320646e, 0x6e657665, 0x61657920);
    SecondLinesA();
    SecondLinesB();
  }

  lemma ThirdWords()
    ensures Le(0x72, 0x73, 0x20, 0x61) == 0x61207372 && Sum(0x336aded2, 0x61207372) == 0x948b5244
    ensures Le(0x67, 0x6f, 0x00, 0x00) == 0x00006f67 && Sum(0x059f2642, 0x00006f67) == 0x059f95a9
    ensures Le(0x00, 0x00, 0x00, 0x00) == 0x00000000 && Sum(0xbd02ebd5, 0x00000000) == 0xbd02ebd5
  {
  }

  lemma ThirdLinesA()
    ensures FinalLine(Abc(0x948b5244, 0x059f95a9, 0xbd02ebd5), 14) == Abc(0x059f95a9, 0xd3333d15, 0x948b5244)
    ensures FinalLine(Abc(0x059f95a9, 0xd3333d15, 0x948b5244), 11) == Abc(0xd3333d15, 0xadcfc0b8, 0x059f95a9)
    ensures FinalLine(Abc(0xd3333d15, 0xadcfc0b8, 0x059f95a9), 25) == Abc(0xadcfc0b8, 0x36f4b590, 0xd3333d15)
  {
  }

  lemma ThirdLinesB()
    ensures FinalLine(Abc(0xadcfc0b8, 0x36f4b590, 0xd3333d15), 16) == Abc(0x36f4b590, 0x30375191, 0xadcfc0b8)
    ensures FinalLine(Abc(0x36f4b590, 0x30375191, 0xadcfc0b8), 4) == Abc(0x30375191, 0x9a837816, 0x36f4b590)
    ensures FinalLine(Abc(0x30375191, 0x9a837816, 0x36f4b590), 14) == Abc(0x9a837816, 0xce7226e6, 0x30375191)
    ensures FinalLine(Abc(0x9a837816, 0xce7226e6, 0x30375191), 24) == Abc(0xce7226e6, 0x17770551, 0x9a837816)
  {
  }

  lemma ThirdBlock(s: Abc, p: seq<byte>)
    requires s == Abc(0x336aded2, 0x059f2642, 0xbd02ebd5)
    requires p == [0x72, 0x73, 0x20, 0x61, 0x67, 0x6f, 0x00, 0x00, 0x00, 0x00, 0x00, 0x00]
    ensures Final(AddIn(s, p)) == Abc(0x9a837816, 0xce7226e6, 0x17770551)
  {
    hide FinalLine, Sum, Le, AddIn;
    ThirdWords();
    Sums(s, p, 0x61207372, 0x00006f67, 0x00000000);
    ThirdLinesA();
    ThirdLinesB();
  }

  lemma StartsAt()
    ensures Start(30, 0) == 0xdeadbf0d
  {
    var n := (30 % 0x1_0000_0000) as word;
    assert n == 30;
    assert Sum(Sum(0xdead_beef, n), 0) == 0xdeadbf0d;
  }

  lemma StartsEmpty()
    ensures Start(0, INITVAL) == 0xdeadbefc
  {
    var n := (0 % 0x1_0000_0000) as word;
    assert n == 0;
    assert Sum(Sum(0xdead_beef, n), 13) == 0xdeadbefc;
  }

  /** hashlittle("Four score and seven years ago", 30, 0) is 17770551 in the comments of lookup3.c. */
  lemma FourScoreHash()
    ensures Lookup3(FourScore(), 0) == 0x17770551
  {
    hide Mix, Final, AddIn, Start, FourScore, Absorb;
    StartsAt();
    var s, m := Abc(0xdeadbf0d, 0xdeadbf0d, 0xdeadbf0d), FourScore();
    FourScoreParts();
    FirstBlock(s, m[..12]);
    SecondBlock(Abc(0xf859ad7a, 0x04bc57ae, 0x40dddd7e), m[12..24]);
    ThirdBlock(Abc(0x336aded2, 0x059f2642, 0xbd02ebd5), Padded(m[24..]));
    ThreeBlocks(s, m);
  }

  lemma FourScoreParts()
    ensures var m := FourScore();
            && m[..12] == [0x46, 0x6f, 0x75, 0x72, 0x20, 0x73, 0x63, 0x6f, 0x72, 0x65, 0x20, 0x61]
            && m[12..24] == [0x6e, 0x64, 0x20, 0x73, 0x65, 0x76, 0x65, 0x6e, 0x20, 0x79, 0x65, 0x61]
            && Padded(m[24..]) == [0x72, 0x73, 0x20, 0x61, 0x67, 0x6f, 0x00, 0x00, 0x00, 0x00, 0x00, 0x00]
  {
  }

  lemma ThreeBlocks(s: Abc, m: seq<byte>)
    requires |m| == 30
    ensures Absorb(s, m) == Final(AddIn(Mix(AddIn(Mix(AddIn(s, m[..12])), m[12..24])), Padded(m[24..]))).c
  {
    hide Mix, Final, AddIn, Padded;
    assert m[12..][..12] == m[12..24] && m[12..][12..] == m[24..] && m[24..] != [];
    var s1 := Mix(AddIn(s, m[..12]));
    assert Absorb(s, m) == Absorb(s1, m[12..]);
    assert Absorb(s1, m[12..]) == Absorb(Mix(AddIn(s1, m[12..24])), m[24..]);
  }

  /** hash_jenkins of the empty key: 0xdeadbeef plus JENKINS_INITVAL. */
  lemma EmptyHash()
    ensures Jenkins([]) == 0xdeadbefc
  {
    hide Start;
    StartsEmpty();
  }

  // ---------------------------------------------------------------- hash_jenkins("apple")

  lemma StartsApple()
    ensures Start(5, INITVAL) == 0xdeadbf01
  {
    var n := (5 % 0x1_0000_0000) as word;
    assert n == 5;
    assert Sum(Sum(0xdead_beef, n), 13) == 0xdeadbf01;
  }

  lemma AppleWords()
    ensures Le(0x61, 0x70, 0x70, 0x6c) == 0x6c707061 && Sum(0xdeadbf01, 0x6c707061) == 0x4b1e2f62
    ensures Le(0x65, 0x00, 0x00, 0x00) == 0x00000065 && Sum(0xdeadbf01, 0x00000065) == 0xdeadbf66
    ensures Le(0x00, 0x00, 0x00, 0x00) == 0x00000000 && Sum(0xdeadbf01, 0x00000000) == 0xdeadbf01
  {
  }

  lemma AppleLinesA()
    ensures FinalLine(Abc(0x4b1e2f62, 0xdeadbf66, 0xdeadbf01), 14) == Abc(0xdeadbf66, 0x902648bc, 0x4b1e2f62)
    ensures FinalLine(Abc(0xdeadbf66, 0x902648bc, 0x4b1e2f62), 11) == Abc(0x902648bc, 0xa8f2835d, 0xdeadbf66)
    ensures FinalLine(Abc(0x902648bc, 0xa8f2835d, 0xdeadbf66), 25) == Abc(0xa8f2835d, 0xbb0d5735, 0x902648bc)
  {
  }

  lemma AppleLinesB()
    ensures FinalLine(Abc(0xa8f2835d, 0xbb0d5735, 0x902648bc), 16) == Abc(0xbb0d5735, 0xd3f5647c, 0xa8f2835d)
    ensures FinalLine(Abc(0xbb0d5735, 0xd3f5647c, 0xa8f2835d), 4) == Abc(0xd3f5647c, 0x3bb19f54, 0xbb0d5735)
    ensures FinalLine(Abc(0xd3f5647c, 0x3bb19f54, 0xbb0d5735), 14) == Abc(0x3bb19f54, 0x18e7b975, 0xd3f5647c)
    ensures FinalLine(Abc(0x3bb19f54, 0x18e7b975, 0xd3f5647c), 24) == Abc(0x18e7b975, 0x55f9f550, 0x3bb19f54)
  {
  }

  /** hash_jenkins("apple") in the table of libmemcached. */
  lemma AppleHash()
    ensures Jenkins([0x61, 0x70, 0x70, 0x6c, 0x65]) == 1442444624
  {
    hide Start, Sum, Le, AddIn, FinalLine;
    StartsApple();
    AppleWords();
    AppleLinesA();
    AppleLinesB();
    var p: seq<byte> := [0x61, 0x70, 0x70, 0x6c, 0x65, 0x00, 0x00, 0x00, 0x00, 0x00, 0x00, 0x00];
    assert Padded([0x61, 0x70, 0x70, 0x6c, 0x65]) == p;
    Sums(Abc(0xdeadbf01, 0xdeadbf01, 0xdeadbf01), p, 0x6c707061, 0x00000065, 0x00000000);
  }
}
