/**
 hash_jenkins of common/hashkit/nc_jenkins.c as a function of the bytes of the key alone: blocks of
 three words, low-order byte first, the last one filled up with zeros.
 */
module JenkinsSpec {
  import opened Words

  datatype Abc = Abc(a: word, b: word, c: word)

  function Less(x: word, y: word): word { x - y }

  // ---------------------------------------------------------------- mix and final

  /** a -= c; a ^= rot(c, k); c += b. The next line has b for a, c for b and a for c. */
  function MixLine(s: Abc, k: nat): Abc
    requires 0 < k < 32
  {
    Abc(s.b, Sum(s.c, s.b), Xor(Less(s.a, s.c), Rotated(s.c, k)))
  }

  function UnmixLine(t: Abc, k: nat): Abc
    requires 0 < k < 32
  {
    var b := t.a;
    var c := Less(t.b, b);
    Abc(Sum(Xor(t.c, Rotated(c, k)), c), b, c)
  }

  function Mix(s: Abc): Abc {
    MixLine(MixLine(MixLine(MixLine(MixLine(MixLine(s, 4), 6), 8), 16), 19), 4)
  }

  function Unmix(t: Abc): Abc {
    UnmixLine(UnmixLine(UnmixLine(UnmixLine(UnmixLine(UnmixLine(t, 4), 19), 16), 8), 6), 4)
  }

  /** c ^= b; c -= rot(b, k). The next line has a for c, c for b and b for a. */
  function FinalLine(s: Abc, k: nat): Abc
    requires 0 < k < 32
  {
    Abc(s.b, Less(Xor(s.c, s.b), Rotated(s.b, k)), s.a)
  }

  function UnfinalLine(t: Abc, k: nat): Abc
    requires 0 < k < 32
  {
    Abc(t.c, t.a, Xor(Sum(t.b, Rotated(t.a, k)), t.a))
  }

  /** Seven lines leave the registers one place further on. */
  function Final(s: Abc): Abc {
    var t := FinalLine(FinalLine(FinalLine(FinalLine(FinalLine(FinalLine(FinalLine(s, 14), 11), 25), 16), 4), 14), 24);
    Abc(t.c, t.a, t.b)
  }

  function Unfinal(r: Abc): Abc {
    var t := Abc(r.b, r.c, r.a);
    UnfinalLine(UnfinalLine(UnfinalLine(UnfinalLine(UnfinalLine(UnfinalLine(UnfinalLine(t, 24), 14), 4), 16), 25), 11), 14)
  }

  lemma XorBack(x: word, y: word)
    ensures (x ^ y) ^ y == x
  {
  }

  lemma LessBack(x: word, y: word)
    ensures (x - y) + y == x
  {
  }

  lemma SumBack(x: word, y: word)
    ensures (x + y) - y == x
  {
  }

  lemma XorUndone(x: word, y: word)
    ensures Xor(Xor(x, y), y) == x
  {
    XorBack(x, y);
  }

  lemma SumOf(x: word, y: word)
    ensures Sum(x - y, y) == x
  {
    LessBack(x, y);
  }

  lemma LessOf(x: word, y: word)
    ensures Less(x + y, y) == x
  {
    SumBack(x, y);
  }

  lemma LessUndone(x: word, y: word)
    ensures Sum(Less(x, y), y) == x
  {
    hide Sum;
    SumOf(x, y);
  }

  lemma SumUndone(x: word, y: word)
    ensures Less(Sum(x, y), y) == x
  {
    hide Less;
    LessOf(x, y);
  }

  lemma Undone(x: word, y: word)
    ensures Xor(Xor(x, y), y) == x && Sum(Less(x, y), y) == x && Less(Sum(x, y), y) == x
  {
    hide Sum, Less, Xor;
    XorUndone(x, y);
    LessUndone(x, y);
    SumUndone(x, y);
  }

  lemma MixLineBack(s: Abc, k: nat)
    requires 0 < k < 32
    ensures UnmixLine(MixLine(s, k), k) == s && MixLine(UnmixLine(s, k), k) == s
  {
    hide Sum, Less, Xor, Rotated;
    Undone(s.c, s.b);
    Undone(Less(s.a, s.c), Rotated(s.c, k));
    Undone(s.a, s.c);
    var c := Less(s.b, s.a);
    Undone(s.b, s.a);
    Undone(s.c, Rotated(c, k));
    Undone(Xor(s.c, Rotated(c, k)), c);
  }

  lemma FinalLineBack(s: Abc, k: nat)
    requires 0 < k < 32
    ensures UnfinalLine(FinalLine(s, k), k) == s && FinalLine(UnfinalLine(s, k), k) == s
  {
    hide Sum, Less, Xor, Rotated;
    Undone(Xor(s.c, s.b), Rotated(s.b, k));
    Undone(s.c, s.b);
    Undone(s.b, Rotated(s.a, k));
    Undone(Sum(s.b, Rotated(s.a, k)), s.a);
  }

  /** mix is a bijection on (a, b, c): Unmix is its inverse on both sides. */
  lemma MixIsBijective(s: Abc)
    ensures Unmix(Mix(s)) == s && Mix(Unmix(s)) == s
  {
    hide MixLine, UnmixLine;
    var s1, t1 := MixLine(s, 4), UnmixLine(s, 4);
    var s2, t2 := MixLine(s1, 6), UnmixLine(t1, 19);
    var s3, t3 := MixLine(s2, 8), UnmixLine(t2, 16);
    var s4, t4 := MixLine(s3, 16), UnmixLine(t3, 8);
    var s5, t5 := MixLine(s4, 19), UnmixLine(t4, 6);
    MixLineBack(s, 4);
    MixLineBack(s1, 6);
    MixLineBack(s2, 8);
    MixLineBack(s3, 16);
    MixLineBack(s4, 19);
    MixLineBack(s5, 4);
    MixLineBack(t1, 19);
    MixLineBack(t2, 16);
    MixLineBack(t3, 8);
    MixLineBack(t4, 6);
    MixLineBack(t5, 4);
  }

  /** So is final. */
  lemma FinalIsBijective(s: Abc)
    ensures Unfinal(Final(s)) == s && Final(Unfinal(s)) == s
  {
    FinalBack(s);
    FinalForth(s);
  }

  lemma FinalBack(s: Abc)
    ensures Unfinal(Final(s)) == s
  {
    hide FinalLine, UnfinalLine;
    var s1 := FinalLine(s, 14);
    var s2 := FinalLine(s1, 11);
    var s3 := FinalLine(s2, 25);
    var s4 := FinalLine(s3, 16);
    var s5 := FinalLine(s4, 4);
    var s6 := FinalLine(s5, 14);
    FinalLineBack(s, 14);
    FinalLineBack(s1, 11);
    FinalLineBack(s2, 25);
    FinalLineBack(s3, 16);
    FinalLineBack(s4, 4);
    FinalLineBack(s5, 14);
    FinalLineBack(s6, 24);
  }

  lemma FinalForth(s: Abc)
    ensures Final(Unfinal(s)) == s
  {
    hide FinalLine, UnfinalLine;
    var t := Abc(s.b, s.c, s.a);
    var t1 := UnfinalLine(t, 24);
    var t2 := UnfinalLine(t1, 14);
    var t3 := UnfinalLine(t2, 4);
    var t4 := UnfinalLine(t3, 16);
    var t5 := UnfinalLine(t4, 25);
    var t6 := UnfinalLine(t5, 11);
    FinalLineBack(t, 24);
    FinalLineBack(t1, 14);
    FinalLineBack(t2, 4);
    FinalLineBack(t3, 16);
    FinalLineBack(t4, 25);
    FinalLineBack(t5, 11);
    FinalLineBack(t6, 14);
  }

  // ---------------------------------------------------------------- the whole key

  /** The words of twelve bytes, added to the state. */
  function AddIn(s: Abc, p: seq<byte>): Abc
    requires |p| == 12
  {
    Abc(Sum(s.a, WordAt(p, 0)), Sum(s.b, WordAt(p, 4)), Sum(s.c, WordAt(p, 8)))
  }

  function Padded(m: seq<byte>): seq<byte>
    requires |m| <= 12
  {
    m + seq(12 - |m|, _ => 0)
  }

  /** The last block, of one to twelve bytes; a key without bytes is not mixed. */
  function Last(s: Abc, m: seq<byte>): word
    requires |m| <= 12
  {
    if m == [] then s.c else Final(AddIn(s, Padded(m))).c
  }

  function Absorb(s: Abc, m: seq<byte>): word
    decreases |m|
  {
    if |m| <= 12 then Last(s, m) else Absorb(Mix(AddIn(s, m[..12])), m[12..])
  }

  /** a, b and c at the start; the length goes in modulo 2^32. */
  function Start(length: nat, initval: word): word {
    Sum(Sum(0xdead_beef, (length % 0x1_0000_0000) as word), initval)
  }

  /** hashlittle of Bob Jenkins' lookup3.c, of which hash_jenkins is the case of one initval. */
  function Lookup3(m: seq<byte>, initval: word): word {
    var s := Start(|m|, initval);
    Absorb(Abc(s, s, s), m)
  }

  /** JENKINS_INITVAL. */
  const INITVAL: word := 13

  function Jenkins(m: seq<byte>): word {
    Lookup3(m, INITVAL)
  }

  /** The state behind whole blocks, each mixed. */
  function Mixed(s: Abc, p: seq<byte>): Abc
    requires |p| % 12 == 0
    decreases |p|
  {
    if p == [] then s else Mixed(Mix(AddIn(s, p[..12])), p[12..])
  }

  /**
   Whole blocks go through mix and the last one, of one to twelve bytes, through final: a key of a
   multiple of twelve bytes keeps its last block for final too.
   */
  lemma {:induction false} LastBlock(s: Abc, p: seq<byte>, r: seq<byte>)
    requires |p| % 12 == 0 && 1 <= |r| <= 12
    ensures Absorb(s, p + r) == Final(AddIn(Mixed(s, p), Padded(r))).c
    decreases |p|
  {
    hide Mix, Final, AddIn, Padded;
    if p == [] {
      assert p + r == r;
    } else {
      assert (p + r)[..12] == p[..12] && (p + r)[12..] == p[12..] + r;
      LastBlock(Mix(AddIn(s, p[..12])), p[12..], r);
    }
  }
}
