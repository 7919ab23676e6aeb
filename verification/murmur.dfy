/**
 hash_murmur of common/hashkit.cpp. Every step of it can be undone, so two keys of one length that
 differ in a single aligned block, or only in their last one to three bytes, never collide.
 */
module Murmur {
  import opened Words

  // ---------------------------------------------------------------- the steps

  /** h *= m. */
  function Times(x: word): word { x * 0x5bd1_e995 }

  /** 0xe59b19bd is the inverse of m modulo 2^32. */
  function Untimes(x: word): word { x * 0xe59b_19bd }

  function Shift24(x: word): word { x ^ (x >> 24) }

  function Shift13(x: word): word { x ^ (x >> 13) }

  function Shift15(x: word): word { x ^ (x >> 15) }

  function Unshift13(x: word): word { (x ^ (x >> 13)) ^ (x >> 26) }

  function Unshift15(x: word): word { (x ^ (x >> 15)) ^ (x >> 30) }

  /** What a block of the key is turned into before it meets the hash. */
  function Scrambled(k: word): word {
    Times(Shift24(Times(k)))
  }

  function Unscrambled(k: word): word {
    Untimes(Shift24(Untimes(k)))
  }

  /** h *= m; h ^= k. */
  function Block(h: word, k: word): word {
    Xor(Times(h), Scrambled(k))
  }

  /** The last one to three bytes, as the low-order bytes of a word. */
  function TailWord(m: seq<byte>): word
    requires |m| < 4
  {
    Le(if |m| > 0 then m[0] else 0, if |m| > 1 then m[1] else 0, if |m| > 2 then m[2] else 0, 0)
  }

  function Tail(h: word, m: seq<byte>): word
    requires |m| < 4
  {
    if m == [] then h else Times(Xor(h, TailWord(m)))
  }

  function Finish(h: word): word {
    Shift15(Times(Shift13(h)))
  }

  function Unfinish(h: word): word {
    Unshift13(Untimes(Unshift15(h)))
  }

  /** All blocks of four bytes, then the tail. */
  function Blocks(h: word, m: seq<byte>): word
    decreases |m|
  {
    if |m| < 4 then Tail(h, m) else Blocks(Block(h, WordAt(m, 0)), m[4..])
  }

  function Seed(length: nat): word {
    var n := (length % 0x1_0000_0000) as word;
    Xor(0xdead_beef * n, n)
  }

  function Hash(m: seq<byte>): word {
    Finish(Blocks(Seed(|m|), m))
  }

  // ---------------------------------------------------------------- undoing them

  lemma TimesRaw(x: word)
    ensures x * 0x5bd1_e995 * 0xe59b_19bd == x
  {
  }

  lemma Shift24Raw(x: word)
    ensures (x ^ (x >> 24)) ^ ((x ^ (x >> 24)) >> 24) == x
  {
  }

  lemma Shift13Raw(x: word)
    ensures ((x ^ (x >> 13)) ^ ((x ^ (x >> 13)) >> 13)) ^ ((x ^ (x >> 13)) >> 26) == x
  {
  }

  lemma Shift15Raw(x: word)
    ensures ((x ^ (x >> 15)) ^ ((x ^ (x >> 15)) >> 15)) ^ ((x ^ (x >> 15)) >> 30) == x
  {
  }

  lemma UntimesOf(x: word)
    ensures Untimes(x * 0x5bd1_e995) == x
  {
    TimesRaw(x);
  }

  lemma Unshift13Of(x: word)
    ensures Unshift13(x ^ (x >> 13)) == x
  {
    Shift13Raw(x);
  }

  lemma Unshift15Of(x: word)
    ensures Unshift15(x ^ (x >> 15)) == x
  {
    Shift15Raw(x);
  }

  lemma TimesBack(x: word)
    ensures Untimes(Times(x)) == x
  {
    hide Untimes;
    UntimesOf(x);
  }

  lemma Shift24Back(x: word)
    ensures Shift24(Shift24(x)) == x
  {
    Shift24Raw(x);
  }

  lemma Shift13Back(x: word)
    ensures Unshift13(Shift13(x)) == x
  {
    hide Unshift13;
    Unshift13Of(x);
  }

  lemma Shift15Back(x: word)
    ensures Unshift15(Shift15(x)) == x
  {
    hide Unshift15;
    Unshift15Of(x);
  }

  lemma ScrambledBack(k: word)
    ensures Unscrambled(Scrambled(k)) == k
  {
    hide Times, Untimes, Shift24;
    TimesBack(k);
    Shift24Back(Times(k));
    TimesBack(Shift24(Times(k)));
  }

  /** The finalizer is injective. */
  lemma FinishBack(h: word)
    ensures Unfinish(Finish(h)) == h
  {
    hide Times, Untimes, Shift13, Shift15, Unshift13, Unshift15;
    Shift13Back(h);
    TimesBack(Shift13(h));
    Shift15Back(Times(Shift13(h)));
  }

  /** A block step is injective in the hash and in the block. */
  lemma BlockInjective(h: word, k: word, g: word, j: word)
    requires Block(h, k) == Block(g, j)
    ensures h == g ==> k == j
    ensures k == j ==> h == g
  {
    hide Times, Untimes, Scrambled, Unscrambled, Xor;
    TimesBack(h);
    TimesBack(g);
    ScrambledBack(k);
    ScrambledBack(j);
    XorIs(Times(h), Scrambled(k), 0);
    XorIs(Times(g), Scrambled(j), 0);
    XorIs(Scrambled(k), Times(h), 0);
    XorIs(Scrambled(j), Times(g), 0);
  }

  lemma LeRaw(b0: byte, b1: byte, b2: byte, b3: byte)
    ensures (((b0 as word) | ((b1 as word) << 8) | ((b2 as word) << 16) | ((b3 as word) << 24)) & 0xff) as byte == b0
    ensures ((((b0 as word) | ((b1 as word) << 8) | ((b2 as word) << 16) | ((b3 as word) << 24)) >> 8) & 0xff) as byte == b1
    ensures ((((b0 as word) | ((b1 as word) << 8) | ((b2 as word) << 16) | ((b3 as word) << 24)) >> 16) & 0xff) as byte == b2
    ensures ((((b0 as word) | ((b1 as word) << 8) | ((b2 as word) << 16) | ((b3 as word) << 24)) >> 24) & 0xff) as byte == b3
  {
  }

  lemma LeBack(b0: byte, b1: byte, b2: byte, b3: byte)
    ensures var w := Le(b0, b1, b2, b3);
            (w & 0xff) as byte == b0 && ((w >> 8) & 0xff) as byte == b1
            && ((w >> 16) & 0xff) as byte == b2 && ((w >> 24) & 0xff) as byte == b3
  {
    LeRaw(b0, b1, b2, b3);
  }

  lemma LeInjective(b0: byte, b1: byte, b2: byte, b3: byte, c0: byte, c1: byte, c2: byte, c3: byte)
    requires Le(b0, b1, b2, b3) == Le(c0, c1, c2, c3)
    ensures b0 == c0 && b1 == c1 && b2 == c2 && b3 == c3
  {
    hide Le;
    LeBack(b0, b1, b2, b3);
    LeBack(c0, c1, c2, c3);
  }

  lemma WordInjective(x: seq<byte>, y: seq<byte>)
    requires |x| == |y| == 4 && WordAt(x, 0) == WordAt(y, 0)
    ensures x == y
  {
    hide Le;
    LeInjective(x[0], x[1], x[2], x[3], y[0], y[1], y[2], y[3]);
    assert x == [x[0], x[1], x[2], x[3]] && y == [y[0], y[1], y[2], y[3]];
  }

  lemma TailInjective(h: word, x: seq<byte>, g: word, y: seq<byte>)
    requires |x| == |y| < 4 && Tail(h, x) == Tail(g, y)
    ensures h == g ==> x == y
    ensures x == y ==> h == g
  {
    hide Times, Untimes, Le, Xor;
    if x != [] {
      TimesBack(Xor(h, TailWord(x)));
      TimesBack(Xor(g, TailWord(y)));
      XorIs(h, TailWord(x), 0);
      XorIs(g, TailWord(y), 0);
      XorIs(TailWord(x), h, 0);
      XorIs(TailWord(y), g, 0);
      if h == g {
        TailBytes(x, y);
      }
    }
  }

  lemma TailBytes(x: seq<byte>, y: seq<byte>)
    requires |x| == |y| < 4 && TailWord(x) == TailWord(y)
    ensures x == y
  {
    hide Le;
    LeInjective(if |x| > 0 then x[0] else 0, if |x| > 1 then x[1] else 0, if |x| > 2 then x[2] else 0, 0,
                if |y| > 0 then y[0] else 0, if |y| > 1 then y[1] else 0, if |y| > 2 then y[2] else 0, 0);
  }

  // ---------------------------------------------------------------- keys that cannot collide

  /** Behind a common front the same bytes take different hashes to different hashes. */
  lemma {:induction false} BlocksInjective(h: word, g: word, m: seq<byte>)
    requires Blocks(h, m) == Blocks(g, m)
    ensures h == g
    decreases |m|
  {
    hide Block, Tail, WordAt;
    if |m| < 4 {
      TailInjective(h, m, g, m);
    } else {
      BlocksInjective(Block(h, WordAt(m, 0)), Block(g, WordAt(m, 0)), m[4..]);
      BlockInjective(h, WordAt(m, 0), g, WordAt(m, 0));
    }
  }

  lemma {:induction false} BlocksFront(h: word, p: seq<byte>, m: seq<byte>)
    requires |p| % 4 == 0
    ensures Blocks(h, p + m) == Blocks(Blocks(h, p), m)
    decreases |p|
  {
    hide Block, Le;
    if p == [] {
      assert p + m == m;
    } else {
      assert (p + m)[4..] == p[4..] + m;
      assert WordAt(p + m, 0) == WordAt(p, 0);
      BlocksFront(Block(h, WordAt(p, 0)), p[4..], m);
    }
  }

  /** Keys that differ in exactly one aligned block of four bytes have different hashes. */
  lemma OneBlock(p: seq<byte>, x: seq<byte>, y: seq<byte>, r: seq<byte>)
    requires |p| % 4 == 0 && |x| == |y| == 4 && x != y
    ensures Hash(p + x + r) != Hash(p + y + r)
  {
    hide Blocks, Block, Finish, Unfinish, Seed;
    if Hash(p + x + r) == Hash(p + y + r) {
      var s := Seed(|p + x + r|);
      assert p + x + r == p + (x + r) && p + y + r == p + (y + r);
      FinishBack(Blocks(s, p + x + r));
      FinishBack(Blocks(s, p + y + r));
      BlocksFront(s, p, x + r);
      BlocksFront(s, p, y + r);
      var h := Blocks(s, p);
      OneStep(h, x, r);
      OneStep(h, y, r);
      BlocksInjective(Block(h, WordAt(x, 0)), Block(h, WordAt(y, 0)), r);
      BlockInjective(h, WordAt(x, 0), h, WordAt(y, 0));
      WordInjective(x, y);
    }
  }

  lemma OneStep(h: word, x: seq<byte>, r: seq<byte>)
    requires |x| == 4
    ensures Blocks(h, x + r) == Blocks(Block(h, WordAt(x, 0)), r)
  {
    hide Block, Le;
    assert (x + r)[4..] == r;
  }

  /** Keys of one length that differ only in the one to three bytes behind the last block do too. */
  lemma OnlyTheTail(p: seq<byte>, x: seq<byte>, y: seq<byte>)
    requires |p| % 4 == 0 && |x| == |y| < 4 && x != y
    ensures Hash(p + x) != Hash(p + y)
  {
    hide Block, Finish, Unfinish, Seed, Tail;
    if Hash(p + x) == Hash(p + y) {
      var s := Seed(|p + x|);
      FinishBack(Blocks(s, p + x));
      FinishBack(Blocks(s, p + y));
      BlocksFront(s, p, x);
      BlocksFront(s, p, y);
      TailInjective(Blocks(s, p), x, Blocks(s, p), y);
    }
  }

  // ---------------------------------------------------------------- the loop

  function UpBy(b: byte, s: nat): word
    requires s < 32
  {
    (b as word) << s
  }

  lemma TailRaw(b0: byte, b1: byte, b2: byte)
    ensures (((b2 as word) << 16) ^ ((b1 as word) << 8)) ^ (b0 as word)
         == (b0 as word) | ((b1 as word) << 8) | ((b2 as word) << 16) | ((0 as word) << 24)
  {
  }

  lemma UpByIs(b: byte)
    ensures UpBy(b, 16) == (b as word) << 16 && UpBy(b, 8) == (b as word) << 8
  {
  }

  lemma TailSum(b0: byte, b1: byte, b2: byte)
    ensures Xor(Xor(UpBy(b2, 16), UpBy(b1, 8)), b0 as word) == Le(b0, b1, b2, 0)
  {
    hide UpBy;
    UpByIs(b1);
    UpByIs(b2);
    TailRaw(b0, b1, b2);
  }

  lemma TailIs(h: word, b0: byte, b1: byte, b2: byte)
    ensures Xor(Xor(Xor(h, UpBy(b2, 16)), UpBy(b1, 8)), b0 as word) == Xor(h, Le(b0, b1, b2, 0))
  {
    hide Xor, UpBy, Le;
    TailSum(b0, b1, b2);
    XorIs(h, UpBy(b2, 16), UpBy(b1, 8));
    XorIs(h, Xor(UpBy(b2, 16), UpBy(b1, 8)), b0 as word);
  }

  lemma NothingUp(h: word)
    ensures Xor(h, UpBy(0, 16)) == h && Xor(h, UpBy(0, 8)) == h
  {
  }

  /** The switch over the last bytes: every case falls through. */
  method TailSwitch(h0: word, m: seq<byte>) returns (h: word)
    requires |m| < 4
    ensures h == Tail(h0, m)
  {
    hide Xor, Le, UpBy, Times;
    h := h0;
    if |m| > 0 {
      TailIs(h, m[0], if |m| > 1 then m[1] else 0, if |m| > 2 then m[2] else 0);
      NothingUp(h);
      if |m| >= 3 {
        h := Xor(h, UpBy(m[2], 16));
      }
      if |m| >= 2 {
        h := Xor(h, UpBy(m[1], 8));
      }
      h := Xor(h, m[0] as word);
      h := Times(h);
    }
  }

  /** hash_murmur. */
  method HashMurmur(key: seq<byte>) returns (h: word)
    ensures h == Hash(key)
  {
    hide Xor, Times, Shift24, Shift13, Shift15, Seed, Tail, Le;
    h := Seed(|key|);
    var data := key;
    while |data| >= 4
      invariant Blocks(h, data) == Blocks(Seed(|key|), key)
      decreases |data|
    {
      var k := WordAt(data, 0);
      k := Times(k);
      k := Shift24(k);
      k := Times(k);
      h := Times(h);
      h := Xor(h, k);
      data := data[4..];
    }
    h := TailSwitch(h, data);
    h := Shift13(h);
    h := Times(h);
    h := Shift15(h);
  }
}
