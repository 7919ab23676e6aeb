/** The table-driven loops of common/hashkit/nc_crc32.c, against bit-by-bit division. */
module Crc32Hash {
  import opened Words
  import opened Crc32Spec
  import opened Crc32Table

  lemma {:induction false} DividedSnoc(c: word, m: seq<byte>, b: byte)
    ensures Divided(c, m + [b]) == Eight(Xor(Divided(c, m), b as word))
    decreases |m|
  {
    hide Eight, Xor;
    if m == [] {
      assert m + [b] == [b] && [b][1..] == [];
    } else {
      assert (m + [b])[1..] == m[1..] + [b];
      DividedSnoc(Eight(Xor(c, m[0] as word)), m[1..], b);
    }
  }

  lemma ByteBelow(b: byte)
    ensures (b as word) < 256
  {
  }

  lemma IndexBelow(x: word)
    ensures x & 0xff < 256
  {
  }

  /** What one turn of the loop does to the register. */
  function Turn(crc: word, i: word): word {
    IndexBelow(i);
    Xor(crc >> 8, Table(i & 0xff))
  }

  lemma TurnIs(crc: word, b: byte)
    ensures Turn(crc, Xor(crc, b as word)) == Eight(Xor(crc, b as word))
  {
    hide Eight, Table;
    ByteBelow(b);
    IndexBelow(crc ^ (b as word));
    ByteAtOnce(crc, b as word);
    TableIs((crc ^ (b as word)) & 0xff);
    XorIs(crc >> 8, Table((crc ^ (b as word)) & 0xff), 0);
  }

  lemma CharIndex(crc: word, b: byte)
    ensures (crc ^ Char(b)) & 0xff == (crc ^ (b as word)) & 0xff
  {
  }

  /** hash_crc32a: the CRC-32 of RFC 1952. */
  method HashCrc32a(key: seq<byte>) returns (hash: word)
    ensures hash == Crc32(key)
  {
    hide Eight, Xor, Turn;
    var crc: word := 0xffff_ffff;
    for x := 0 to |key|
      invariant crc == Divided(0xffff_ffff, key[..x])
    {
      assert key[..x + 1] == key[..x] + [key[x]];
      DividedSnoc(0xffff_ffff, key[..x], key[x]);
      TurnIs(crc, key[x]);
      crc := Turn(crc, Xor(crc, key[x] as word));
    }
    assert key[..|key|] == key;
    hash := Xor(crc, 0xffff_ffff);
  }

  /** hash_crc32: bits 16 to 30 of it. */
  method HashCrc32(key: seq<byte>) returns (hash: word)
    ensures hash == Upper(Crc32(key))
  {
    hide Eight, Turn, Upper, Not, Xor, Char;
    var crc: word := 0xffff_ffff;
    for x := 0 to |key|
      invariant crc == Divided(0xffff_ffff, key[..x])
    {
      assert key[..x + 1] == key[..x] + [key[x]];
      DividedSnoc(0xffff_ffff, key[..x], key[x]);
      TurnIs(crc, key[x]);
      CharTurn(crc, key[x]);
      crc := Turn(crc, Xor(crc, Char(key[x])));
    }
    assert key[..|key|] == key;
    hash := Upper(Not(crc));
    Inverted(crc);
  }

  lemma CharTurn(crc: word, b: byte)
    ensures Turn(crc, Xor(crc, Char(b))) == Turn(crc, Xor(crc, b as word))
  {
    hide Table, Char;
    CharIndex(crc, b);
  }

  function Not(x: word): word { !x }

  /** Bits 16 to 30. */
  function Upper(x: word): word { (x >> 16) & 0x7fff }

  lemma InvertedRaw(crc: word)
    ensures !crc == crc ^ 0xffff_ffff
  {
  }

  lemma Inverted(crc: word)
    ensures Not(crc) == Xor(crc, 0xffff_ffff)
  {
    InvertedRaw(crc);
  }
}
