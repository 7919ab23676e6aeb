/**
 The loop of common/hashkit/nc_crc16.c, whose register has 32 bits: what is shifted out of the low
 half stays above it, and never comes back into the low half.
 */
module Crc16Hash {
  import opened Words
  import opened Crc16Spec
  import opened Crc16Table

  function Low(crc: word): short {
    (crc & 0xffff) as short
  }

  lemma IndexBelow(x: word)
    ensures x & 0xff < 256
  {
  }

  /** The table index of one turn; the char of the key is signed, the mask takes care of it. */
  function Index(crc: word, b: byte): (i: short)
    ensures i < 256
  {
    IndexBelow((crc >> 8) ^ Char(b));
    (((crc >> 8) ^ Char(b)) & 0xff) as short
  }

  function Step(crc: word, entry: short): word {
    (crc << 8) ^ (entry as word)
  }

  lemma IndexRaw(crc: word, b: byte)
    ensures (((crc >> 8) ^ (if b & 0x80 != 0 then (b as word) | 0xffff_ff00 else b as word)) & 0xff) as short
         == (((crc & 0xffff) as short) >> 8) ^ (b as short)
  {
  }

  lemma StepRaw(crc: word, entry: short)
    ensures (((crc << 8) ^ (entry as word)) & 0xffff) as short == entry ^ (((crc & 0xffff) as short) << 8)
  {
  }

  lemma IndexIs(crc: word, b: byte)
    ensures Index(crc, b) == (Low(crc) >> 8) ^ (b as short)
  {
    IndexRaw(crc, b);
  }

  lemma StepIs(crc: word, entry: short)
    ensures Low(Step(crc, entry)) == Add(entry, Low(crc) << 8)
  {
    StepRaw(crc, entry);
  }

  lemma ByteBelow(b: byte)
    ensures (b as short) < 256
  {
  }

  lemma TurnIs(crc: word, b: byte)
    ensures Low(Step(crc, Table(Index(crc, b)))) == Eight(Add(Low(crc), High(b as short)))
  {
    hide Low, Step, Index, Table, Eight, Add, High;
    ByteBelow(b);
    ByteAtOnce(Low(crc), b as short);
    IndexIs(crc, b);
    TableIs(Index(crc, b));
    StepIs(crc, Table(Index(crc, b)));
  }

  lemma {:induction false} DividedSnoc(c: short, m: seq<byte>, b: byte)
    ensures Divided(c, m + [b]) == Eight(Add(Divided(c, m), High(b as short)))
    decreases |m|
  {
    hide Eight, Add, High;
    if m == [] {
      assert m + [b] == [b] && [b][1..] == [];
    } else {
      assert (m + [b])[1..] == m[1..] + [b];
      DividedSnoc(Eight(Add(c, High(m[0] as short))), m[1..], b);
    }
  }

  /** hash_crc16: its low half is the CRC. */
  method HashCrc16(key: seq<byte>) returns (hash: word)
    ensures Low(hash) == Crc16(key)
  {
    hide Eight, Add, High, Low, Step, Index, Table;
    var crc: word := 0;
    LowZero();
    for x := 0 to |key|
      invariant Low(crc) == Divided(0, key[..x])
    {
      assert key[..x + 1] == key[..x] + [key[x]];
      DividedSnoc(0, key[..x], key[x]);
      TurnIs(crc, key[x]);
      crc := Step(crc, Table(Index(crc, key[x])));
    }
    assert key[..|key|] == key;
    hash := crc;
  }

  lemma LowZero()
    ensures Low(0) == 0
  {
  }
}
