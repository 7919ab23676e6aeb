/**
 Published values of the hash functions: the check values of the two CRCs, which are those of the nine
 digits, and two keys of libmemcached's own table for hash_murmur.
 */
module HashValues {
  import opened Words
  import Crc32Spec
  import Crc32Hash
  import Crc16Spec
  import Murmur

  /** "123456789" */
  function Digits(): seq<byte> {
    [0x31, 0x32, 0x33, 0x34, 0x35, 0x36, 0x37, 0x38, 0x39]
  }

  // ---------------------------------------------------------------- CRC-32

  lemma Crc32Bytes0()
    ensures Crc32Spec.Eight(Xor(0xffffffff, 0x31 as word)) == 0x7c231048
    ensures Crc32Spec.Eight(Xor(0x7c231048, 0x32 as word)) == 0xb0acbb32
    ensures Crc32Spec.Eight(Xor(0xb0acbb32, 0x33 as word)) == 0x77b79c2d
  {
  }

  lemma Crc32Bytes3()
    ensures Crc32Spec.Eight(Xor(0x77b79c2d, 0x34 as word)) == 0x641c1f5c
    ensures Crc32Spec.Eight(Xor(0x641c1f5c, 0x35 as word)) == 0x340ac5e3
    ensures Crc32Spec.Eight(Xor(0x340ac5e3, 0x36 as word)) == 0xf68d2c9e
  {
  }

  lemma Crc32Bytes6()
    ensures Crc32Spec.Eight(Xor(0xf68d2c9e, 0x37 as word)) == 0xaffc9660
    ensures Crc32Spec.Eight(Xor(0xaffc9660, 0x38 as word)) == 0x651f2550
    ensures Crc32Spec.Eight(Xor(0x651f2550, 0x39 as word)) == 0x340bc6d9
  {
  }

  lemma Crc32On(c: word, m: seq<byte>, b: byte, d: word)
    requires m != [] && m[0] == b && Crc32Spec.Eight(Xor(c, b as word)) == d
    ensures Crc32Spec.Divided(c, m) == Crc32Spec.Divided(d, m[1..])
  {
    hide Crc32Spec.Eight;
  }

  lemma Crc32Digits()
    ensures Crc32Spec.Divided(0xffffffff, Digits()) == 0x340bc6d9
  {
    hide Crc32Spec.Eight, Crc32Spec.Divided;
    Crc32Bytes0();
    Crc32Bytes3();
    Crc32Bytes6();
    var m := Digits();
    Crc32On(0xffffffff, m[0..], 0x31, 0x7c231048);
    assert m[0..][1..] == m[1..];
    Crc32On(0x7c231048, m[1..], 0x32, 0xb0acbb32);
    assert m[1..][1..] == m[2..];
    Crc32On(0xb0acbb32, m[2..], 0x33, 0x77b79c2d);
    assert m[2..][1..] == m[3..];
    Crc32On(0x77b79c2d, m[3..], 0x34, 0x641c1f5c);
    assert m[3..][1..] == m[4..];
    Crc32On(0x641c1f5c, m[4..], 0x35, 0x340ac5e3);
    assert m[4..][1..] == m[5..];
    Crc32On(0x340ac5e3, m[5..], 0x36, 0xf68d2c9e);
    assert m[5..][1..] == m[6..];
    Crc32On(0xf68d2c9e, m[6..], 0x37, 0xaffc9660);
    assert m[6..][1..] == m[7..];
    Crc32On(0xaffc9660, m[7..], 0x38, 0x651f2550);
    assert m[7..][1..] == m[8..];
    Crc32On(0x651f2550, m[8..], 0x39, 0x340bc6d9);
    assert m[8..][1..] == m[9..];
    Crc32None(0x340bc6d9);
    assert m[0..] == m && m[9..] == [];
  }

  lemma Crc32None(c: word)
    ensures Crc32Spec.Divided(c, []) == c
  {
  }

  /** The check value of CRC-32 is CBF43926; hash_crc32 keeps bits 16 to 30 of it. */
  lemma Crc32Check()
    ensures Crc32Spec.Crc32(Digits()) == 0xcbf4_3926
    ensures Crc32Hash.Upper(Crc32Spec.Crc32(Digits())) == 0x4bf4
  {
    hide Crc32Spec.Divided, Digits, Crc32Hash.Upper;
    Crc32Digits();
    UpperOf();
  }

  lemma UpperOf()
    ensures Xor(0x340bc6d9, 0xffff_ffff) == 0xcbf4_3926
    ensures Crc32Hash.Upper(0xcbf4_3926) == 0x4bf4
  {
  }

  // ---------------------------------------------------------------- CRC-16

  lemma Crc16Bytes0()
    ensures Crc16Spec.Eight(Crc16Spec.Add(0x0000, Crc16Spec.High(0x31 as Crc16Spec.short))) == 0x2672
    ensures Crc16Spec.Eight(Crc16Spec.Add(0x2672, Crc16Spec.High(0x32 as Crc16Spec.short))) == 0x20b5
    ensures Crc16Spec.Eight(Crc16Spec.Add(0x20b5, Crc16Spec.High(0x33 as Crc16Spec.short))) == 0x9752
  {
  }

  lemma Crc16Bytes3()
    ensures Crc16Spec.Eight(Crc16Spec.Add(0x9752, Crc16Spec.High(0x34 as Crc16Spec.short))) == 0xd789
    ensures Crc16Spec.Eight(Crc16Spec.Add(0xd789, Crc16Spec.High(0x35 as Crc16Spec.short))) == 0x546c
    ensures Crc16Spec.Eight(Crc16Spec.Add(0x546c, Crc16Spec.High(0x36 as Crc16Spec.short))) == 0x20e4
  {
  }

  lemma Crc16Bytes6()
    ensures Crc16Spec.Eight(Crc16Spec.Add(0x20e4, Crc16Spec.High(0x37 as Crc16Spec.short))) == 0x86d6
    ensures Crc16Spec.Eight(Crc16Spec.Add(0x86d6, Crc16Spec.High(0x38 as Crc16Spec.short))) == 0x9015
    ensures Crc16Spec.Eight(Crc16Spec.Add(0x9015, Crc16Spec.High(0x39 as Crc16Spec.short))) == 0x31c3
  {
  }

  lemma Crc16On(c: Crc16Spec.short, m: seq<byte>, b: byte, d: Crc16Spec.short)
    requires m != [] && m[0] == b && Crc16Spec.Eight(Crc16Spec.Add(c, Crc16Spec.High(b as Crc16Spec.short))) == d
    ensures Crc16Spec.Divided(c, m) == Crc16Spec.Divided(d, m[1..])
  {
    hide Crc16Spec.Eight;
  }

  lemma Crc16Digits()
    ensures Crc16Spec.Divided(0x0000, Digits()) == 0x31c3
  {
    hide Crc16Spec.Eight, Crc16Spec.Divided;
    Crc16Bytes0();
    Crc16Bytes3();
    Crc16Bytes6();
    var m := Digits();
    Crc16On(0x0000, m[0..], 0x31, 0x2672);
    assert m[0..][1..] == m[1..];
    Crc16On(0x2672, m[1..], 0x32, 0x20b5);
    assert m[1..][1..] == m[2..];
    Crc16On(0x20b5, m[2..], 0x33, 0x9752);
    assert m[2..][1..] == m[3..];
    Crc16On(0x9752, m[3..], 0x34, 0xd789);
    assert m[3..][1..] == m[4..];
    Crc16On(0xd789, m[4..], 0x35, 0x546c);
    assert m[4..][1..] == m[5..];
    Crc16On(0x546c, m[5..], 0x36, 0x20e4);
    assert m[5..][1..] == m[6..];
    Crc16On(0x20e4, m[6..], 0x37, 0x86d6);
    assert m[6..][1..] == m[7..];
    Crc16On(0x86d6, m[7..], 0x38, 0x9015);
    assert m[7..][1..] == m[8..];
    Crc16On(0x9015, m[8..], 0x39, 0x31c3);
    assert m[8..][1..] == m[9..];
    Crc16None(0x31c3);
    assert m[0..] == m && m[9..] == [];
  }

  lemma Crc16None(c: Crc16Spec.short)
    ensures Crc16Spec.Divided(c, []) == c
  {
  }

  /** The check value of the CRC with polynomial 1021 that starts from zero is 31C3. */
  lemma Crc16Check()
    ensures Crc16Spec.Crc16(Digits()) == 0x31c3
  {
    hide Crc16Spec.Divided, Digits;
    Crc16Digits();
  }

  // ---------------------------------------------------------------- hash_murmur

  lemma StrawberryStart()
    ensures Murmur.Seed(10) == 0xb2c9755c
  {
    var n := (10 % 0x1_0000_0000) as word;
    assert n == 10;
    assert 0xdead_beef * n == 0xb2c97556;
    assert Xor(0xdead_beef * n, n) == 0xb2c9755c;
  }

  lemma StrawberrySteps()
    ensures Le(0x73, 0x74, 0x72, 0x61) == 0x61727473
    ensures Murmur.Block(0xb2c9755c, 0x61727473) == 0x5ab6cda1
    ensures Le(0x77, 0x62, 0x65, 0x72) == 0x72656277
    ensures Murmur.Block(0x5ab6cda1, 0x72656277) == 0x8b0545dd
    ensures Le(0x72, 0x79, 0, 0) == 0x00007972
    ensures Murmur.Times(Xor(0x8b0545dd, 0x00007972)) == 0x6e2698db
    ensures Murmur.Finish(0x6e2698db) == 0x8f1bb12e
  {
  }

  /** hash_murmur("strawberry") */
  lemma StrawberryHash()
    ensures Murmur.Hash([0x73, 0x74, 0x72, 0x61, 0x77, 0x62, 0x65, 0x72, 0x72, 0x79]) == 2400956718
  {
    hide Murmur.Block, Murmur.Times, Murmur.Finish, Murmur.Seed, Xor, Le;
    StrawberryStart();
    StrawberrySteps();
    var m: seq<byte> := [0x73, 0x74, 0x72, 0x61, 0x77, 0x62, 0x65, 0x72, 0x72, 0x79];
    assert Murmur.Blocks(0xb2c9755c, m[0..]) == Murmur.Blocks(0x5ab6cda1, m[0..][4..]);
    assert m[0..][4..] == m[4..];
    assert Murmur.Blocks(0x5ab6cda1, m[4..]) == Murmur.Blocks(0x8b0545dd, m[4..][4..]);
    assert m[4..][4..] == m[8..];
    assert Murmur.Blocks(0x8b0545dd, m[8..]) == 0x6e2698db;
    assert m[0..] == m;
  }

  lemma IckStart()
    ensures Murmur.Seed(3) == 0x9c093cce
  {
    var n := (3 % 0x1_0000_0000) as word;
    assert n == 3;
    assert 0xdead_beef * n == 0x9c093ccd;
    assert Xor(0xdead_beef * n, n) == 0x9c093cce;
  }

  lemma IckSteps()
    ensures Le(0x69, 0x63, 0x6b, 0) == 0x006b6369
    ensures Murmur.Times(Xor(0x9c093cce, 0x006b6369)) == 0x02a7ab33
    ensures Murmur.Finish(0x02a7ab33) == 0x5b0aea32
  {
  }

  /** hash_murmur("ick") */
  lemma IckHash()
    ensures Murmur.Hash([0x69, 0x63, 0x6b]) == 1527441970
  {
    hide Murmur.Block, Murmur.Times, Murmur.Finish, Murmur.Seed, Xor, Le;
    IckStart();
    IckSteps();
    var m: seq<byte> := [0x69, 0x63, 0x6b];
    assert Murmur.Blocks(0x9c093cce, m[0..]) == 0x02a7ab33;
    assert m[0..] == m;
  }

}