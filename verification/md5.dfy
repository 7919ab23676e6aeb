/**
 The streaming interface of common/hashkit/nc_md5.c: MD5_Init, MD5_Update, MD5_Final over a context
 that keeps the tail of the message in a 64-byte buffer and its length in two counters.
 */
module Md5Stream {
  import opened Words
  import opened Md5Spec
  import opened Md5Body

  const WORD: nat := 0x1_0000_0000

  function LowCount(n: nat): (r: nat)
    ensures r < WORD
  {
    n % 0x2000_0000
  }

  function HighCount(n: nat): (r: nat)
    ensures r < WORD
  {
    n / 0x2000_0000 % WORD
  }

  /** What of m is not in a whole block. */
  function Tail(m: seq<byte>): seq<byte> {
    m[|m| - |m| % 64..]
  }

  lemma NoTail(m: seq<byte>)
    requires |m| % 64 == 0
    ensures Tail(m) == []
  {
  }

  lemma Used(n: nat)
    ensures LowCount(n) % 64 == n % 64
  {
  }

  class MD5_CTX {
    var lo: nat
    var hi: nat
    var a: word
    var b: word
    var c: word
    var d: word
    const buffer: array<byte>

    ghost predicate Shape()
      reads this
    {
      buffer.Length == 64 && lo < WORD && hi < WORD
    }

    ghost function Registers(): State
      reads this
    {
      State(a, b, c, d)
    }

    /** The context has taken in exactly the message m. */
    ghost predicate Holds(m: seq<byte>)
      reads this, buffer
    {
      && Shape()
      && Registers() == Chain(INITIAL, m)
      && buffer[..|m| % 64] == Tail(m)
      && lo == LowCount(|m|) && hi == HighCount(|m|)
    }

    /** MD5_Init. */
    constructor ()
      ensures Holds([]) && fresh(buffer)
    {
      hide Chain, Tail, Compress;
      NoBlock(INITIAL);
      NoTail([]);
      a, b, c, d := 0x67452301, 0xefcdab89, 0x98badcfe, 0x10325476;
      lo, hi := 0, 0;
      buffer := new byte[64](_ => 0);
    }

    /** body: one or more whole blocks of data; the result is the pointer behind them. */
    method Body(data: seq<byte>, size: nat) returns (ptr: seq<byte>)
      requires 0 < size <= |data| && size % 64 == 0
      modifies `a, `b, `c, `d
      ensures ptr == data[size..]
      ensures Registers() == Chain(old(Registers()), data[..size])
    {
      hide Compress, BlockAt, Chain, Steps;
      ptr := data;
      var a', b', c', d' := a, b, c, d;
      var left := size;
      ghost var all := data[..size];
      while true
        invariant 0 < left <= size && left % 64 == 0
        invariant ptr == data[size - left..]
        invariant Chain(State(a', b', c', d'), data[size - left..size]) == Chain(old(Registers()), all)
        decreases left
      {
        ghost var from := size - left;
        a', b', c', d' := OneBlock(a', b', c', d', ptr);
        NextBlock(data[from..size]);
        assert data[from..size][..64] == ptr[..64];
        assert data[from..size][64..] == data[from + 64..size];
        ptr := ptr[64..];
        left := left - 64;
        if left == 0 {
          break;
        }
      }
      NoBlock(State(a', b', c', d'));
      assert data[size..size] == [];
      a, b, c, d := a', b', c', d';
    }

    /** MD5_Update. */
    method Update(data: seq<byte>, ghost m: seq<byte>)
      requires Holds(m)
      requires |data| < 0x1_0000_0000_0000_0000
      modifies this, buffer
      ensures Holds(m + data)
    {
      hide Chain, LowCount, HighCount, Tail;
      var saved := lo;
      Used(|m|);
      Count(|data|, |m|);
      Append(data, saved % 64, m);
    }

    /** The counters, by the first lines of MD5_Update; n is the length so far. */
    method Count(size: nat, ghost n: nat)
      requires lo == LowCount(n) && hi == HighCount(n)
      modifies `lo, `hi
      ensures lo == LowCount(n + size) && hi == HighCount(n + size)
    {
      var saved := lo;
      lo := (saved + size) % 0x2000_0000;
      if lo < saved {
        hi := (hi + 1) % WORD;
      }
      hi := (hi + size / 0x2000_0000) % WORD;
      Counted(n, size);
    }

    /** The second half of MD5_Update: the bytes go through the buffer, or past it. */
    method Append(data: seq<byte>, used: nat, ghost m: seq<byte>)
      requires buffer.Length == 64 && used == |m| % 64
      requires Registers() == Chain(INITIAL, m) && buffer[..used] == Tail(m)
      modifies `a, `b, `c, `d, buffer
      ensures Registers() == Chain(INITIAL, m + data)
      ensures buffer[..|m + data| % 64] == Tail(m + data)
    {
      hide Chain, Tail;
      var rest := data;
      ghost var taken := m;
      if used != 0 {
        var free := 64 - used;
        if |data| < free {
          Copy(used, data);
          Unfinished(m, data);
          return;
        }
        Copy(used, data[..free]);
        rest := data[free..];
        FullBlock(m, data[..free]);
        taken := m + data[..free];
        assert taken + rest == m + data;
      }
      Straight(rest, taken);
      assert taken + rest == m + data;
    }

    /** With an empty buffer: whole blocks straight from data, the tail into the buffer. */
    method Straight(data: seq<byte>, ghost m: seq<byte>)
      requires buffer.Length == 64 && |m| % 64 == 0 && Registers() == Chain(INITIAL, m)
      modifies `a, `b, `c, `d, buffer
      ensures Registers() == Chain(INITIAL, m + data)
      ensures buffer[..|m + data| % 64] == Tail(m + data)
    {
      hide Chain, Tail;
      Cut(m, data);
      var rest, whole := data, |data| - |data| % 64;
      if |data| >= 64 {
        rest := Body(data, whole);
        ChainConcat(INITIAL, m, data[..whole]);
      } else {
        assert m + data[..0] == m;
      }
      Unfinished(m + data[..whole], data[whole..]);
      Copy(0, rest);
    }

    /**
     The first half of MD5_Final: the one bit and the zeros, with a block of their own if the length
     would not fit behind them. The buffer then holds pad behind the tail of taken.
     */
    method PadOut(at: nat, ghost m: seq<byte>) returns (ghost taken: seq<byte>, ghost pad: seq<byte>)
      requires buffer.Length == 64 && at == |m| % 64
      requires Registers() == Chain(INITIAL, m) && buffer[..at] == Tail(m)
      modifies `a, `b, `c, `d, buffer
      ensures taken + pad == m + [0x80] + Zeros(Needed(at))
      ensures |taken| % 64 + |pad| == 56
      ensures Registers() == Chain(INITIAL, taken)
      ensures buffer[..56] == Tail(taken) + pad
    {
      hide Chain, Zeros, Tail;
      taken, pad := m, [0x80];
      Copy(at, [0x80]);
      var used := at + 1;
      var free := 64 - used;
      ZerosAdd(free, 56);
      if free < 8 {
        FillBlock(used, free, m);
        taken, pad := m + ([0x80] + Zeros(free)), [];
        used := 0;
        free := 64;
        ZerosAdd(56, 0);
      }
      Copy(used, Zeros(free - 8));
      pad := pad + Zeros(free - 8);
    }

    /** The one bit is in the buffer, and zeros fill it up. */
    method FillBlock(used: nat, free: nat, ghost m: seq<byte>)
      requires buffer.Length == 64 && used == |m| % 64 + 1 && free == 64 - used
      requires Registers() == Chain(INITIAL, m) && buffer[..used] == Tail(m) + [0x80]
      modifies `a, `b, `c, `d, buffer
      ensures Registers() == Chain(INITIAL, m + ([0x80] + Zeros(free)))
      ensures |m + ([0x80] + Zeros(free))| % 64 == 0 && Tail(m + ([0x80] + Zeros(free))) == []
    {
      hide Chain, Zeros, Tail;
      ZerosAdd(free, 0);
      Copy(used, Zeros(free));
      assert Tail(m) + [0x80] + Zeros(free) == Tail(m) + ([0x80] + Zeros(free));
      FullBlock(m, [0x80] + Zeros(free));
      NoTail(m + ([0x80] + Zeros(free)));
    }

    /** body on the buffer, which holds data behind the tail of m and is full. */
    method FullBlock(ghost m: seq<byte>, ghost data: seq<byte>)
      requires buffer.Length == 64 && |m| % 64 + |data| == 64
      requires Registers() == Chain(INITIAL, m)
      requires buffer[..64] == Tail(m) + data
      modifies `a, `b, `c, `d
      ensures Registers() == Chain(INITIAL, m + data)
    {
      hide Chain, Tail;
      Completed(m, data);
      assert buffer[..64] == buffer[..];
      var _ := Body(buffer[..], 64);
    }

    /** MD5_Final up to the digest: everything behind the message goes through the buffer. */
    method Close(ghost m: seq<byte>)
      requires Holds(m)
      modifies `lo, `a, `b, `c, `d, buffer
      ensures Registers() == Chain(INITIAL, Padded(m)) && hi == old(hi)
    {
      hide Chain, LowCount, HighCount, LowFirst, Tail, Padded;
      Used(|m|);
      ghost var taken, pad := PadOut(lo % 64, m);
      lo := lo * 8 % WORD;
      Copy(56, LowFirst(lo, 4));
      Copy(60, LowFirst(hi, 4));
      LengthBytes(|m|);
      assert taken + (pad + LowFirst(8 * |m|, 8)) == (taken + pad) + LowFirst(8 * |m|, 8);
      pad := pad + LowFirst(8 * |m|, 8);
      FullBlock(taken, pad);
      PaddedIs(m);
    }

    /** MD5_Final: the digest, and a cleared context. */
    method Final(ghost m: seq<byte>) returns (result: seq<byte>)
      requires Holds(m)
      modifies this, buffer
      ensures result == Md5(m)
      ensures Registers() == State(0, 0, 0, 0) && lo == 0 && hi == 0 && buffer[..] == Zeros(64)
    {
      hide Chain, Output, Padded, Tail, LowCount, HighCount;
      Close(m);
      result := Output(State(a, b, c, d));
      lo, hi, a, b, c, d := 0, 0, 0, 0, 0, 0;
      Copy(0, Zeros(64));
    }

    /** memcpy into the buffer. */
    method Copy(at: nat, data: seq<byte>)
      requires at + |data| <= buffer.Length
      modifies buffer
      ensures buffer[..at + |data|] == old(buffer[..at]) + data
    {
      forall i | 0 <= i < |data| {
        buffer[at + i] := data[i];
      }
    }
  }

  // ---------------------------------------------------------------- clients

  function Joint(chunks: seq<seq<byte>>): seq<byte> {
    if chunks == [] then [] else Joint(chunks[..|chunks| - 1]) + chunks[|chunks| - 1]
  }

  lemma JointIs(chunks: seq<seq<byte>>)
    ensures Joint(chunks[..0]) == []
    ensures forall i | 0 <= i < |chunks| :: Joint(chunks[..i + 1]) == Joint(chunks[..i]) + chunks[i]
  {
    assert forall i | 0 <= i < |chunks| :: chunks[..i + 1][..i] == chunks[..i];
  }

  /** However a message is cut into chunks, the digest is that of the message. */
  method InChunks(chunks: seq<seq<byte>>) returns (result: seq<byte>)
    requires forall c | c in chunks :: |c| < 0x1_0000_0000_0000_0000
    ensures result == Md5(Joint(chunks))
  {
    hide Joint, Md5, MD5_CTX.Holds;
    JointIs(chunks);
    var ctx := new MD5_CTX();
    for i := 0 to |chunks|
      invariant fresh(ctx) && fresh(ctx.buffer)
      invariant ctx.Holds(Joint(chunks[..i]))
    {
      ctx.Update(chunks[i], Joint(chunks[..i]));
    }
    assert chunks[..|chunks|] == chunks;
    result := ctx.Final(Joint(chunks));
  }

  /** md5_signature. */
  method Signature(key: seq<byte>) returns (result: seq<byte>)
    requires |key| < 0x1_0000_0000_0000_0000
    ensures result == Md5(key)
  {
    hide Chain, Md5;
    var ctx := new MD5_CTX();
    ctx.Update(key, []);
    assert [] + key == key;
    result := ctx.Final(key);
  }

  lemma WordAgain(w: word)
    ensures ((((w >> 24) & 0xff) as byte) as word << 24) | ((((w >> 16) & 0xff) as byte) as word << 16)
            | ((((w >> 8) & 0xff) as byte) as word << 8) | (((w & 0xff) as byte) as word) == w
  {
  }

  /** hash_md5: the first register of the digest, whatever the byte order of the machine. */
  method Hash(key: seq<byte>) returns (hash: word)
    requires |key| < 0x1_0000_0000_0000_0000
    ensures hash == Chain(INITIAL, Padded(key)).a
  {
    hide Chain, Padded;
    var results := Signature(key);
    ghost var w := Chain(INITIAL, Padded(key)).a;
    WordAgain(w);
    assert results[..4] == WordBytes(w);
    hash := ((results[3] as word) << 24) | ((results[2] as word) << 16) | ((results[1] as word) << 8) | (results[0] as word);
  }

  // ---------------------------------------------------------------- what one block, or less, adds

  method OneBlock(a0: word, b0: word, c0: word, d0: word, ptr: seq<byte>) returns (a: word, b: word, c: word, d: word)
    requires |ptr| >= 64
    ensures State(a, b, c, d) == Compress(State(a0, b0, c0, d0), BlockAt(ptr[..64]))
  {
    hide Steps, BlockAt, Sum;
    ghost var s := State(a0, b0, c0, d0);
    var x := BlockAt(ptr[..64]);
    StepsNone(s, x);
    a, b, c, d := Round1(a0, b0, c0, d0, x, s);
    a, b, c, d := Round2(a, b, c, d, x, s);
    a, b, c, d := Round3(a, b, c, d, x, s);
    a, b, c, d := Round4(a, b, c, d, x, s);
    a, b, c, d := Sum(a, a0), Sum(b, b0), Sum(c, c0), Sum(d, d0);
  }

  lemma StepsNone(s: State, x: Block)
    ensures Steps(s, x, 0) == s
  {
  }

  lemma NextBlock(m: seq<byte>)
    requires |m| >= 64
    ensures forall s :: Chain(s, m) == Chain(Compress(s, BlockAt(m[..64])), m[64..])
  {
  }

  lemma NoBlock(s: State)
    ensures Chain(s, []) == s
  {
  }

  /** The two counters together count modulo 2^61: a carry out of lo shows as a smaller lo. */
  lemma Counted(n: nat, size: nat)
    ensures var lo := (n % 0x2000_0000 + size) % 0x2000_0000;
            var carry := if lo < n % 0x2000_0000 then 1 else 0;
            lo == (n + size) % 0x2000_0000
            && ((n / 0x2000_0000 % WORD + carry) % WORD + size / 0x2000_0000) % WORD == (n + size) / 0x2000_0000 % WORD
  {
    var l := n % 0x2000_0000 + size % 0x2000_0000;
    var h := n / 0x2000_0000 + size / 0x2000_0000;
    assert n + size == 0x2000_0000 * h + l;
    assert (n + size) / 0x2000_0000 == if l < 0x2000_0000 then h else h + 1;
  }

  /** Where the whole blocks of a message end that goes on with data. */
  lemma Cut(m: seq<byte>, data: seq<byte>)
    requires |m| % 64 == 0
    ensures var whole, n := |data| - |data| % 64, |m + data|;
            m + data == m + data[..whole] + data[whole..]
            && |m + data[..whole]| % 64 == 0 && whole % 64 == 0
            && n % 64 == |data| % 64 && Tail(m + data) == data[whole..]
  {
    WholeBlocks(|m|, |data|);
    CutAt(m, data, |data| % 64);
  }

  lemma WholeBlocks(n: nat, k: nat)
    requires n % 64 == 0
    ensures (n + k) % 64 == k % 64 && (k - k % 64) % 64 == 0 && (n + (k - k % 64)) % 64 == 0
  {
  }

  lemma CutAt(m: seq<byte>, data: seq<byte>, rest: nat)
    requires rest <= |data| && |m + data| % 64 == rest
    ensures m + data == m + data[..|data| - rest] + data[|data| - rest..]
    ensures Tail(m + data) == data[|data| - rest..]
  {
  }

  /** Less than a block more leaves the registers alone. */
  lemma Unfinished(m: seq<byte>, data: seq<byte>)
    requires |m| % 64 + |data| < 64
    ensures Chain(INITIAL, m + data) == Chain(INITIAL, m)
    ensures |m + data| % 64 == |m| % 64 + |data| && Tail(m + data) == Tail(m) + data
  {
    hide Chain, Tail;
    ChainWhole(INITIAL, m);
    ChainWhole(INITIAL, m + data);
    SameWhole(|m|, |data|);
    TailMore(m, data, |m| % 64);
  }

  lemma TailMore(m: seq<byte>, data: seq<byte>, k: nat)
    requires k == |m| % 64 && |m + data| % 64 == k + |data|
    ensures (m + data)[..|m| - k] == m[..|m| - k] && Tail(m + data) == Tail(m) + data
  {
    assert (m + data)[|m| - k..] == m[|m| - k..] + data;
  }

  lemma SameWhole(n: nat, k: nat)
    requires n % 64 + k < 64
    ensures (n + k) % 64 == n % 64 + k
  {
  }

  /** Filling the buffer up adds exactly the block in the buffer. */
  lemma Completed(m: seq<byte>, data: seq<byte>)
    requires |m| % 64 + |data| == 64
    ensures Chain(INITIAL, m + data) == Chain(Chain(INITIAL, m), Tail(m) + data)
  {
    hide Chain;
    var w := |m| - |m| % 64;
    ChainWhole(INITIAL, m);
    assert m + data == m[..w] + (m[w..] + data);
    ChainConcat(INITIAL, m[..w], m[w..] + data);
  }

  /** How many zeros follow the one bit, n bytes into a block. */
  function Needed(n: nat): nat
    requires n < 64
  {
    if n <= 55 then 55 - n else 119 - n
  }

  lemma NeededIs(n: nat)
    ensures Gap(n) == Needed(n % 64)
  {
  }

  lemma PaddedIs(m: seq<byte>)
    ensures Padded(m) == m + [0x80] + Zeros(Needed(|m| % 64)) + LowFirst(8 * |m|, 8)
  {
    hide LowFirst, Zeros, Needed, Gap;
    NeededIs(|m|);
  }

  lemma ZerosAdd(n: nat, k: nat)
    ensures |Zeros(n)| == n && |Zeros(k)| == k && Zeros(n + k) == Zeros(n) + Zeros(k)
    ensures n >= 8 ==> |Zeros(n - 8)| == n - 8
  {
  }

  // ---------------------------------------------------------------- the length

  /** What is left of v behind its j low-order bytes. */
  function Dropped(v: nat, j: nat): nat {
    if j == 0 then v else Dropped(v / 256, j - 1)
  }

  lemma {:induction false} LowFirstSplit(v: nat, j: nat, k: nat)
    ensures LowFirst(v, j + k) == LowFirst(v, j) + LowFirst(Dropped(v, j), k)
  {
    if j > 0 {
      LowFirstSplit(v / 256, j - 1, k);
      assert LowFirst(v, j + k) == [(v % 256) as byte] + LowFirst(v / 256, (j - 1) + k);
    }
  }

  lemma DropFour(v: nat)
    ensures Dropped(v, 4) == v / WORD
  {
    var w := v / 256 / 256;
    assert Dropped(w / 256, 1) == w / 256 / 256 == v / WORD;
    assert Dropped(v, 4) == Dropped(v / 256, 3) == Dropped(w, 2);
  }

  function Power(k: nat): nat {
    if k == 0 then 1 else 256 * Power(k - 1)
  }

  lemma AddMultiple(v: nat, t: nat)
    ensures (v + 256 * t) % 256 == v % 256 && (v + 256 * t) / 256 == v / 256 + t
  {
  }

  /** What lies above the k bytes does not show in them. */
  lemma {:induction false} LowFirstSame(v: nat, q: nat, k: nat)
    ensures LowFirst(v + q * Power(k), k) == LowFirst(v, k)
  {
    if k > 0 {
      var t := q * Power(k - 1);
      assert q * Power(k) == 256 * t;
      AddMultiple(v, t);
      LowFirstSame(v / 256, q, k - 1);
    }
  }

  lemma LowFour(v: nat, q: nat)
    ensures LowFirst(v + q * WORD, 4) == LowFirst(v, 4)
  {
    hide LowFirst;
    assert Power(4) == WORD by {
      assert Power(2) == 0x1_0000 && Power(3) == 0x100_0000;
    }
    LowFirstSame(v, q, 4);
  }

  lemma Counters(n: nat)
    ensures LowCount(n) * 8 < WORD
    ensures 8 * n == LowCount(n) * 8 + n / 0x2000_0000 * WORD
    ensures 8 * n / WORD == n / 0x2000_0000
    ensures n / 0x2000_0000 == HighCount(n) + n / 0x2000_0000 / WORD * WORD
  {
    assert n == n / 0x2000_0000 * 0x2000_0000 + LowCount(n);
  }

  /** The low-order word and the high-order word of the bit count, from the byte counters. */
  lemma LengthBytes(n: nat)
    ensures LowFirst(8 * n, 8) == LowFirst(LowCount(n) * 8 % WORD, 4) + LowFirst(HighCount(n), 4)
  {
    hide LowFirst, LowCount, HighCount, Dropped;
    Counters(n);
    LowFirstSplit(8 * n, 4, 4);
    DropFour(8 * n);
    LowFour(LowCount(n) * 8, n / 0x2000_0000);
    LowFour(HighCount(n), n / 0x2000_0000 / WORD);
  }
}
