/**
 Messages on the wire: the six-byte header of common/message.h, packing and dispatching of
 common/message_dispatcher.h, and the de-framing loop of common/net_asio/connection.cpp.
 */
module Message {
  import opened Options

  type octet = x: int | 0 <= x < 256

  type Bytes = seq<octet>

  const HEADER: nat := 6

  // ---------------------------------------------------------------- the header

  /** size, the low 24 bits. */
  function SizeOf(m: Bytes): nat
    requires |m| >= HEADER
  {
    var a: int, b: int, c: int := m[0], m[1], m[2];
    a + 0x100 * b + 0x1_0000 * c
  }

  /** type_is_name, above zip, encrypt and checksum. */
  function IsNamed(m: Bytes): bool
    requires |m| >= HEADER
  {
    m[3] / 8 % 2 == 1
  }

  /** type, or type_len. */
  function TypeOf(m: Bytes): nat
    requires |m| >= HEADER
  {
    var a: int, b: int := m[4], m[5];
    a + 0x100 * b
  }

  function Resized(m: Bytes, n: nat): (r: Bytes)
    ensures |r| == n
  {
    if n <= |m| then m[..n] else m + seq(n - |m|, _ => 0)
  }

  /** The three assignments to the header. Bit fields drop what does not fit; the other flags stay. */
  function WithHeader(m: Bytes, size: nat, named: bool, kind: nat): (r: Bytes)
    requires |m| >= HEADER
    ensures |r| == |m| && SizeOf(r) == size % 0x100_0000 && IsNamed(r) == named && TypeOf(r) == kind % 0x1_0000
    ensures r[3] / 16 == m[3] / 16 && r[3] % 8 == m[3] % 8 && r[HEADER..] == m[HEADER..]
  {
    var r: Bytes := Fields(size, m[3], named, kind) + m[HEADER..];
    FieldsAt(size, m[3], named, kind, r);
    r
  }

  function Fields(size: nat, flags: octet, named: bool, kind: nat): (r: Bytes)
    ensures |r| == HEADER
  {
    [size % 0x100, size / 0x100 % 0x100, size / 0x1_0000 % 0x100, WithNamed(flags, named), kind % 0x100, kind / 0x100 % 0x100]
  }

  /** type_is_name is the fourth of the eight flags. */
  function WithNamed(flags: octet, named: bool): (r: octet)
    ensures r / 8 % 2 == (if named then 1 else 0) && r / 16 == flags / 16 && r % 8 == flags % 8
  {
    var f: int := flags;
    f / 16 * 16 + (if named then 8 else 0) + f % 8
  }

  lemma FieldsAt(size: nat, flags: octet, named: bool, kind: nat, r: Bytes)
    requires |r| >= HEADER && r[..HEADER] == Fields(size, flags, named, kind)
    ensures SizeOf(r) == size % 0x100_0000 && IsNamed(r) == named && TypeOf(r) == kind % 0x1_0000
    ensures r[3] / 16 == flags / 16 && r[3] % 8 == flags % 8
  {
    hide WithNamed;
    Digits(size);
    Digits(kind);
    assert forall k | 0 <= k < HEADER :: r[k] == r[..HEADER][k];
  }

  lemma Digits(n: nat)
    ensures n % 0x100 + 0x100 * (n / 0x100 % 0x100) + 0x1_0000 * (n / 0x1_0000 % 0x100) == n % 0x100_0000
    ensures n % 0x100 + 0x100 * (n / 0x100 % 0x100) == n % 0x1_0000
  {
    assert n / 0x1_0000 == n / 0x100 / 0x100;
    assert n / 0x100_0000 == n / 0x1_0000 / 0x100;
  }

  // ---------------------------------------------------------------- packing

  /** memcpy over the end of a buffer. */
  function Overwritten(m: Bytes, at: nat, data: Bytes): (r: Bytes)
    requires at + |data| <= |m|
    ensures |r| == |m|
  {
    m[..at] + data + m[at + |data|..]
  }

  /** packMsgByName of a message that serializes to data, into a buffer that may have been used before. */
  function PackByName(old_: Bytes, name: Bytes, data: Bytes): Option<Bytes> {
    if name == [] || data == [] then None else
      var m := WithHeader(Resized(old_, HEADER + |name| + |data|), |name| + |data|, true, |name|);
      Some(Overwritten(Overwritten(m, HEADER, name), HEADER + |name|, data))
  }

  /** packMsgByType. */
  function PackByType(old_: Bytes, kind: nat, data: Bytes): Option<Bytes>
    requires kind < 0x1_0000
  {
    if data == [] then None else
      var m := WithHeader(Resized(old_, HEADER + |data|), |data|, false, kind);
      Some(Overwritten(m, HEADER, data))
  }

  // ---------------------------------------------------------------- dispatching

  /** Overread: the code would read behind the message. */
  datatype Dispatched<K> =
    | Delivered(handler: nat, key: K, body: Bytes)
    | SizeInvalid | HeaderError | NoHandler(key: K) | Overread

  /** MessageNameDispatcher::dispatch; handlers are numbered. */
  function DispatchByName(handlers: map<Bytes, nat>, m: Bytes): Dispatched<Bytes> {
    if |m| < HEADER || HEADER + SizeOf(m) != |m| then SizeInvalid
    else if !IsNamed(m) || TypeOf(m) == 0 then HeaderError
    else if TypeOf(m) > SizeOf(m) then Overread
    else
      var name := m[HEADER..HEADER + TypeOf(m)];
      if name in handlers then Delivered(handlers[name], name, m[HEADER + TypeOf(m)..]) else NoHandler(name)
  }

  /** MessageDispatcher::dispatch, which checks no sizes. */
  function DispatchByType(handlers: map<nat, nat>, m: Bytes): Dispatched<nat> {
    if |m| < HEADER then Overread
    else if IsNamed(m) then HeaderError
    else if HEADER + SizeOf(m) > |m| then Overread
    else if TypeOf(m) in handlers then Delivered(handlers[TypeOf(m)], TypeOf(m), m[HEADER..HEADER + SizeOf(m)])
    else NoHandler(TypeOf(m))
  }

  /** bindHandlerPtr: the first handler of a key stays. */
  function Bound<K(==)>(handlers: map<K, nat>, key: K, handler: nat): map<K, nat> {
    if key in handlers then handlers else handlers[key := handler]
  }

  lemma PackedIs(old_: Bytes, name: Bytes, data: Bytes)
    requires name != [] && data != []
    ensures PackByName(old_, name, data).Some?
    ensures var m := PackByName(old_, name, data).value;
            && |m| == HEADER + |name| + |data| && m[HEADER..] == name + data
            && SizeOf(m) == (|name| + |data|) % 0x100_0000 && IsNamed(m) && TypeOf(m) == |name| % 0x1_0000
  {
    hide WithHeader;
    var m := WithHeader(Resized(old_, HEADER + |name| + |data|), |name| + |data|, true, |name|);
    var r := PackByName(old_, name, data).value;
    assert r[..HEADER] == m[..HEADER];
    assert forall k | 0 <= k < HEADER :: r[k] == m[k];
  }

  /** What a packed message is dispatched to, whatever its lengths. */
  lemma PackedGoesTo(old_: Bytes, name: Bytes, data: Bytes, handlers: map<Bytes, nat>)
    requires name != [] && data != []
    ensures var n, len := |name| + |data|, |name| % 0x1_0000;
            DispatchByName(handlers, PackByName(old_, name, data).value)
            == if n >= 0x100_0000 then SizeInvalid
               else if len == 0 then HeaderError
               else if name[..len] in handlers then Delivered(handlers[name[..len]], name[..len], name[len..] + data)
               else NoHandler(name[..len])
  {
    hide PackByName;
    PackedIs(old_, name, data);
    var m, len := PackByName(old_, name, data).value, |name| % 0x1_0000;
    assert m[HEADER..HEADER + len] == m[HEADER..][..len] == name[..len];
    assert m[HEADER + len..] == m[HEADER..][len..] == name[len..] + data;
  }

  /**
   The message reaches the handler of its name with exactly its body if and only if the two lengths
   fit into the header's fields.
   */
  lemma RoundTripByName(old_: Bytes, name: Bytes, data: Bytes, handlers: map<Bytes, nat>)
    requires name != [] && data != [] && name in handlers
    ensures DispatchByName(handlers, PackByName(old_, name, data).value) == Delivered(handlers[name], name, data)
            <==> |name| < 0x1_0000 && |name| + |data| < 0x100_0000
  {
    PackedGoesTo(old_, name, data, handlers);
    assert name[..|name|] == name && name[|name|..] + data == data;
  }

  /** By type the lengths are not compared: a body of 2^24 bytes or more is delivered cut short. */
  lemma RoundTripByType(old_: Bytes, kind: nat, data: Bytes, handlers: map<nat, nat>)
    requires kind < 0x1_0000 && data != [] && kind in handlers
    ensures DispatchByType(handlers, PackByType(old_, kind, data).value)
            == Delivered(handlers[kind], kind, data[..|data| % 0x100_0000])
    ensures data[..|data| % 0x100_0000] == data <==> |data| < 0x100_0000
  {
    hide WithHeader;
    var m := WithHeader(Resized(old_, HEADER + |data|), |data|, false, kind);
    var r := PackByType(old_, kind, data).value;
    assert r[..HEADER] == m[..HEADER];
    assert forall k | 0 <= k < HEADER :: r[k] == m[k];
    var n := |data| % 0x100_0000;
    assert r[HEADER..] == data;
    assert r[HEADER..HEADER + n] == r[HEADER..][..n];
  }

  // ---------------------------------------------------------------- de-framing

  const LIMIT: nat := 8192

  /** How a call of readMessages goes on from a buffer: what the handler gets, and how it ends. */
  datatype Reading =
    | Returns(ok: bool, handled: seq<Bytes>, left: Bytes)
    | Spins(handled: seq<Bytes>, left: Bytes)

  /** A whole header, and a body within the limit that is not there yet. */
  predicate Incomplete(buf: Bytes) {
    |buf| >= HEADER && SizeOf(buf) <= LIMIT && |buf| < HEADER + SizeOf(buf)
  }

  function Read(buf: Bytes): Reading
    decreases |buf|
  {
    if |buf| < HEADER then Returns(true, [], buf)
    else if SizeOf(buf) > LIMIT then Returns(false, [], buf)
    else if Incomplete(buf) then Spins([], buf)
    else
      var n := HEADER + SizeOf(buf);
      var r := Read(buf[n..]);
      r.(handled := [buf[..n]] + r.handled)
  }

  /** A complete frame within the limit. */
  predicate Frame(m: Bytes) {
    |m| >= HEADER && |m| == HEADER + SizeOf(m) && SizeOf(m) <= LIMIT
  }

  function Joined(frames: seq<Bytes>): Bytes {
    if frames == [] then [] else frames[0] + Joined(frames[1..])
  }

  lemma ReadNothing(buf: Bytes)
    ensures |buf| < HEADER ==> Read(buf) == Returns(true, [], buf)
    ensures |buf| >= HEADER && SizeOf(buf) > LIMIT ==> Read(buf) == Returns(false, [], buf)
    ensures Incomplete(buf) ==> Read(buf) == Spins([], buf)
  {
  }

  lemma ReadOne(m: Bytes, rest: Bytes)
    requires Frame(m)
    ensures Read(m + rest) == Read(rest).(handled := [m] + Read(rest).handled)
  {
    hide SizeOf;
    SizeHere(m, rest);
    assert (m + rest)[..|m|] == m && (m + rest)[|m|..] == rest;
  }

  /** Frames in front are handled one by one; the rest decides how it ends. */
  lemma {:induction false} ReadFrames(frames: seq<Bytes>, rest: Bytes)
    requires forall m | m in frames :: Frame(m)
    ensures Read(Joined(frames) + rest) == Read(rest).(handled := frames + Read(rest).handled)
  {
    hide Read, Frame;
    if frames == [] {
      assert Joined(frames) + rest == rest;
      assert frames + Read(rest).handled == Read(rest).handled;
    } else {
      var m, tail := frames[0], Joined(frames[1..]) + rest;
      assert Joined(frames) + rest == m + tail;
      ReadOne(m, tail);
      ReadFrames(frames[1..], rest);
      assert [m] + (frames[1..] + Read(rest).handled) == frames + Read(rest).handled;
    }
  }

  lemma SizeHere(m: Bytes, rest: Bytes)
    requires |m| >= HEADER
    ensures SizeOf(m + rest) == SizeOf(m)
  {
  }

  /** Every buffer is frames, and then less than a header, an oversize header or an incomplete frame. */
  lemma {:induction false} ReadSplits(buf: Bytes)
    ensures var r := Read(buf);
            && buf == Joined(r.handled) + r.left
            && (forall m | m in r.handled :: Frame(m))
            && (r.Spins? <==> Incomplete(r.left))
            && (r.Returns? ==> (r.ok <==> |r.left| < HEADER))
            && (r.Returns? && !r.ok ==> |r.left| >= HEADER && SizeOf(r.left) > LIMIT)
    decreases |buf|
  {
    hide SizeOf;
    if |buf| >= HEADER && SizeOf(buf) <= LIMIT && !Incomplete(buf) {
      var n := HEADER + SizeOf(buf);
      ReadSplits(buf[n..]);
      SizeFront(buf, n);
      JoinedFront(buf[..n], Read(buf[n..]).handled, buf[n..]);
    }
  }

  lemma SizeFront(buf: Bytes, n: nat)
    requires HEADER <= n <= |buf|
    ensures SizeOf(buf[..n]) == SizeOf(buf) && buf == buf[..n] + buf[n..]
  {
    SizeHere(buf[..n], buf[n..]);
    assert buf == buf[..n] + buf[n..];
  }

  lemma JoinedFront(m: Bytes, frames: seq<Bytes>, rest: Bytes)
    ensures Joined([m] + frames) == m + Joined(frames)
    ensures forall left | rest == Joined(frames) + left :: m + rest == Joined([m] + frames) + left
  {
    assert ([m] + frames)[1..] == frames;
  }

  // ---------------------------------------------------------------- one turn of the loop

  datatype Loop = Loop(handled: seq<Bytes>, buf: Bytes)

  /** The loop goes on: the condition holds, and the header is not oversize. */
  predicate GoesOn(s: Loop) {
    |s.buf| >= HEADER && SizeOf(s.buf) <= LIMIT
  }

  /** The body of the while; a frame that is not complete is left where it is. */
  function Turn(s: Loop): Loop
    requires GoesOn(s)
  {
    var n := HEADER + SizeOf(s.buf);
    if |s.buf| >= n then Loop(s.handled + [s.buf[..n]], s.buf[n..]) else s
  }

  function Turns(s: Loop, n: nat): Loop
    decreases n
  {
    if n == 0 || !GoesOn(s) then s else Turns(Turn(s), n - 1)
  }

  lemma {:induction false} TurnsStuck(s: Loop, n: nat)
    requires Incomplete(s.buf)
    ensures Turns(s, n) == s
  {
    if n > 0 {
      TurnsStuck(s, n - 1);
    }
  }

  lemma {:induction false} TurnsReach(s: Loop)
    ensures exists n: nat :: var t, r := Turns(s, n), Read(s.buf);
                        t == Loop(s.handled + r.handled, r.left) && (r.Spins? || !GoesOn(t))
    decreases |s.buf|
  {
    hide SizeOf;
    var r := Read(s.buf);
    if !GoesOn(s) || Incomplete(s.buf) {
      assert s.handled + r.handled == s.handled;
      assert Turns(s, 0) == s;
    } else {
      var t := Turn(s);
      TurnsReach(t);
      var n: nat :| Turns(t, n) == Loop(t.handled + Read(t.buf).handled, Read(t.buf).left)
               && (Read(t.buf).Spins? || !GoesOn(Turns(t, n)));
      assert t.handled + Read(t.buf).handled == s.handled + r.handled;
      assert Turns(s, n + 1) == Turns(t, n);
    }
  }

  /** Whole frames, and then a header whose frame is not complete. */
  ghost predicate EndsInside(buf: Bytes) {
    exists frames, rest :: buf == Joined(frames) + rest && (forall m | m in frames :: Frame(m)) && Incomplete(rest)
  }

  lemma SpinsIff(buf: Bytes)
    ensures Read(buf).Spins? <==> EndsInside(buf)
  {
    hide Read, SizeOf, Frame, Incomplete, Joined;
    ReadSplits(buf);
    if frames, rest :| buf == Joined(frames) + rest && (forall m | m in frames :: Frame(m)) && Incomplete(rest) {
      ReadFrames(frames, rest);
      IncompleteSpins(rest);
    }
  }

  lemma IncompleteSpins(rest: Bytes)
    requires Incomplete(rest)
    ensures Read(rest).Spins?
  {
    hide SizeOf;
  }

  /** readMessages ends exactly on the buffers that do not end inside a frame. */
  lemma EndsIff(buf: Bytes)
    ensures (exists n: nat :: !GoesOn(Turns(Loop([], buf), n))) <==> !EndsInside(buf)
  {
    hide Read, SizeOf, EndsInside;
    var s, r := Loop([], buf), Read(buf);
    SpinsIff(buf);
    ReadSplits(buf);
    TurnsReach(s);
    var n: nat :| Turns(s, n) == Loop(s.handled + r.handled, r.left) && (r.Spins? || !GoesOn(Turns(s, n)));
    if Incomplete(r.left) {
      forall k: nat ensures GoesOn(Turns(s, k)) {
        TurnsGoOn(s, n, k);
      }
    }
  }

  lemma {:induction false} TurnsGoOn(s: Loop, n: nat, k: nat)
    requires Incomplete(Turns(s, n).buf)
    ensures GoesOn(Turns(s, k))
    decreases n
  {
    hide SizeOf;
    if Incomplete(s.buf) {
      TurnsStuck(s, k);
    } else if n > 0 && GoesOn(s) && k > 0 {
      TurnsGoOn(Turn(s), n - 1, k - 1);
    }
  }

  // ---------------------------------------------------------------- from end to end

  function PackedAll(messages: seq<(Bytes, Bytes)>): seq<Bytes>
    requires forall x | x in messages :: x.0 != [] && x.1 != []
  {
    seq(|messages|, k requires 0 <= k < |messages| => PackByName([], messages[k].0, messages[k].1).value)
  }

  lemma PackedFits(name: Bytes, data: Bytes)
    requires name != [] && data != [] && |name| + |data| <= LIMIT
    ensures Frame(PackByName([], name, data).value)
  {
    hide PackByName;
    PackedIs([], name, data);
  }

  /**
   Messages packed one after the other, with part of a header behind them, come out of the stream one
   by one in order, and each would be dispatched to the handler of its name with its body. The program
   has the two halves, but no such path: the connections of net_asio frame by the header of
   net_asio/message.h, which has the same layout without type_is_name, and hand their frames to a
   dispatcher of their own.
   */
  lemma StreamDelivers(messages: seq<(Bytes, Bytes)>, rest: Bytes, handlers: map<Bytes, nat>)
    requires forall x | x in messages :: x.0 != [] && x.1 != [] && |x.0| + |x.1| <= LIMIT && x.0 in handlers
    requires |rest| < HEADER
    ensures Read(Joined(PackedAll(messages)) + rest) == Returns(true, PackedAll(messages), rest)
    ensures forall k | 0 <= k < |messages| :: DispatchByName(handlers, PackedAll(messages)[k])
                                              == Delivered(handlers[messages[k].0], messages[k].0, messages[k].1)
  {
    hide PackByName, Joined, DispatchByName, Frame;
    var frames := PackedAll(messages);
    forall k | 0 <= k < |messages|
      ensures Frame(frames[k])
      ensures DispatchByName(handlers, frames[k]) == Delivered(handlers[messages[k].0], messages[k].0, messages[k].1)
    {
      var x := messages[k];
      PackedFits(x.0, x.1);
      RoundTripByName([], x.0, x.1, handlers);
    }
    ReadFrames(frames, rest);
    assert frames + [] == frames;
  }

  // ---------------------------------------------------------------- on the wire, byte by byte

  /** What packing by name writes: size, low byte first, the flags with type_is_name set, the length of the name, name, body. */
  lemma WireByName(old_: Bytes, name: Bytes, data: Bytes)
    requires name != [] && data != []
    ensures PackByName(old_, name, data).Some?
    ensures var m, n := PackByName(old_, name, data).value, |name| + |data|;
            && m[6..] == name + data && |m| == 6 + n
            && m[0] == n % 256 && m[1] == n / 256 % 256 && m[2] == n / 65536 % 256
            && m[3] == (if |old_| > 3 then old_[3] / 16 * 16 + old_[3] % 8 else 0) + 8
            && m[4] == |name| % 256 && m[5] == |name| / 256 % 256
  {
    hide PackByName;
    PackedIs(old_, name, data);
    PackedFront(old_, name, data);
  }

  lemma PackedFront(old_: Bytes, name: Bytes, data: Bytes)
    requires name != [] && data != []
    ensures var m, n := PackByName(old_, name, data).value, |name| + |data|;
            |m| == 6 + n && m[..6] == Fields(n, if |old_| > 3 then old_[3] else 0, true, |name|)
  {
    hide Fields;
    var n := |name| + |data|;
    var start := Resized(old_, 6 + n);
    assert start[3] == if |old_| > 3 then old_[3] else 0;
    var m := WithHeader(start, n, true, |name|);
    assert m[..6] == Fields(n, start[3], true, |name|);
    assert Overwritten(Overwritten(m, 6, name), 6 + |name|, data)[..6] == m[..6];
  }

  /** What packing by type writes: type_is_name cleared, the type, the body. */
  lemma WireByType(old_: Bytes, kind: nat, data: Bytes)
    requires kind < 0x1_0000 && data != []
    ensures PackByType(old_, kind, data).Some?
    ensures var m, n := PackByType(old_, kind, data).value, |data|;
            && m[6..] == data && |m| == 6 + n
            && m[0] == n % 256 && m[1] == n / 256 % 256 && m[2] == n / 65536 % 256
            && m[3] == (if |old_| > 3 then old_[3] / 16 * 16 + old_[3] % 8 else 0)
            && m[4] == kind % 256 && m[5] == kind / 256
  {
    hide WithNamed;
    var n := |data|;
    var start := Resized(old_, 6 + n);
    assert start[3] == if |old_| > 3 then old_[3] else 0;
    var m := WithHeader(start, n, false, kind);
    assert m[..6] == Fields(n, start[3], false, kind);
    NamedOff(start[3]);
  }

  lemma NamedOff(flags: octet)
    ensures WithNamed(flags, false) == flags / 16 * 16 + flags % 8
  {
  }

  /** The length that the first three bytes of a buffer announce. */
  function Announced(m: Bytes): int
    requires |m| >= 3
  {
    var a: int, b: int, c: int := m[0], m[1], m[2];
    a + 256 * b + 65536 * c
  }

  /**
   dispatch by name of any bytes: the size check, the flag and the length of the name, a name longer than
   the body, and then the handler of the name gets what is behind it.
   */
  lemma DispatchByBytes(handlers: map<Bytes, nat>, m: Bytes)
    ensures var r := DispatchByName(handlers, m);
            if |m| < 6 || 6 + Announced(m) != |m| then r == SizeInvalid else
              var a: int, b: int := m[4], m[5];
              var len := a + 256 * b;
              if m[3] / 8 % 2 == 0 || len == 0 then r == HeaderError
              else if len > Announced(m) then r == Overread
              else var name := m[6..6 + len];
                   r == if name in handlers then Delivered(handlers[name], name, m[6 + len..]) else NoHandler(name)
  {
  }

  /** dispatch by type, which trusts the announced size. */
  lemma DispatchTypeByBytes(handlers: map<nat, nat>, m: Bytes)
    ensures var r := DispatchByType(handlers, m);
            if |m| < 6 then r == Overread
            else if m[3] / 8 % 2 == 1 then r == HeaderError
            else if 6 + Announced(m) > |m| then r == Overread
            else
              var a: int, b: int := m[4], m[5];
              var kind: nat := a + 256 * b;
              r == if kind in handlers then Delivered(handlers[kind], kind, m[6..6 + Announced(m)]) else NoHandler(kind)
  {
  }

  /** Handlers bound one after the other. */
  function BoundAll<K(==)>(handlers: map<K, nat>, binds: seq<(K, nat)>): map<K, nat> {
    if binds == [] then handlers
    else Bound(BoundAll(handlers, binds[..|binds| - 1]), binds[|binds| - 1].0, binds[|binds| - 1].1)
  }

  /** Handler h was the first to be bound to the key. */
  predicate FirstBind<K(==)>(binds: seq<(K, nat)>, key: K, h: nat) {
    exists i :: 0 <= i < |binds| && binds[i] == (key, h) && forall j | 0 <= j < i :: binds[j].0 != key
  }

  /** A key has a handler if and only if one was bound to it, and it is the one bound first. */
  lemma {:induction false} FirstHandlerStays<K>(binds: seq<(K, nat)>, key: K, h: nat)
    ensures var r := BoundAll(map[], binds); key in r && r[key] == h <==> FirstBind(binds, key, h)
    ensures key in BoundAll(map[], binds) <==> exists i :: 0 <= i < |binds| && binds[i].0 == key
  {
    if binds != [] {
      var n := |binds| - 1;
      var front := binds[..n];
      FirstHandlerStays(front, key, h);
      assert forall i | 0 <= i < n :: front[i] == binds[i];
      if FirstBind(binds, key, h) {
        var i :| 0 <= i < |binds| && binds[i] == (key, h) && forall j | 0 <= j < i :: binds[j].0 != key;
        if i < n {
          assert front[i] == (key, h);
        }
      }
      if FirstBind(front, key, h) {
        var i :| 0 <= i < n && front[i] == (key, h) && forall j | 0 <= j < i :: front[j].0 != key;
        assert binds[i] == (key, h);
      }
      if key in BoundAll(map[], front) {
        var i :| 0 <= i < n && front[i].0 == key;
        assert binds[i].0 == key;
      }
    }
  }

  /**
   What readMessages takes out of a buffer: frames of six bytes and what they announce, 8192 at most; and
   it stops in front of fewer than six bytes, in front of more than 8192 announced, or never, in front of
   a frame that is not whole.
   */
  lemma ReadByBytes(buf: Bytes)
    ensures var r := Read(buf);
            && buf == Joined(r.handled) + r.left
            && (forall m | m in r.handled :: |m| >= 6 && |m| == 6 + Announced(m) && Announced(m) <= 8192)
            && (|r.left| < 6 ==> r.Returns? && r.ok)
            && (|r.left| >= 6 ==> (Announced(r.left) > 8192 <==> r.Returns? && !r.ok)
                                  && (r.Spins? <==> Announced(r.left) <= 8192)
                                  && (r.Spins? ==> |r.left| < 6 + Announced(r.left)))
  {
    hide Read, Joined;
    ReadSplits(buf);
    assert forall m | m in Read(buf).handled :: Frame(m);
  }
}
