/** conn.go: messages framed on a byte stream, plain and through a stream cipher. */
module Framing {
  import opened Bytes

  const MAX_MESSAGE_LENGTH: int := 1024 * 64 - 1

  datatype ConnError = EndOfStream | MaxLengthLimit

  /* ---- specification ---- */

  /** What `Send` writes: the length, converted to 16 bits, and the message. */
  function Frame(message: bytes): bytes { PutU16(ToU16(|message|)) + message }

  /** What `Recv` reads off a stream: the message and the rest of the stream. */
  function Parse(stream: bytes): Result<(bytes, bytes), ConnError> {
    if |stream| < 2 then Err(EndOfStream)
    else
      var n := GetU16(stream[..2]);
      if |stream| < 2 + n then Err(EndOfStream) else Ok((stream[2..2 + n], stream[2 + n..]))
  }

  ghost predicate Fits(messages: seq<bytes>) {
    forall i :: 0 <= i < |messages| ==> |messages[i]| <= MAX_MESSAGE_LENGTH
  }

  ghost function Frames(messages: seq<bytes>): bytes {
    if messages == [] then [] else Frame(messages[0]) + Frames(messages[1..])
  }

  /** The messages that `count` calls of `Recv` return, and what they leave on the stream. */
  ghost function ParseMany(stream: bytes, count: nat): Result<(seq<bytes>, bytes), ConnError> {
    if count == 0 then Ok(([], stream))
    else match Parse(stream)
         case Err(e) => Err(e)
         case Ok((message, rest)) =>
           match ParseMany(rest, count - 1)
           case Err(e) => Err(e)
           case Ok((more, left)) => Ok(([message] + more, left))
  }

  /** One frame is read back exactly when its message is no longer than 65535 bytes. */
  lemma ParseFrame(message: bytes, rest: bytes)
    ensures |message| <= MAX_MESSAGE_LENGTH ==> Parse(Frame(message) + rest) == Ok((message, rest))
    ensures |message| > MAX_MESSAGE_LENGTH ==>
              Parse(Frame(message) + rest).Ok? && |Parse(Frame(message) + rest).value.0| < |message|
  {
    var stream := Frame(message) + rest;
    var n := ToU16(|message|);
    assert stream[..2] == PutU16(n);
    if |message| <= MAX_MESSAGE_LENGTH {
      assert stream[2..2 + n] == message && stream[2 + n..] == rest;
    }
  }

  lemma ParseMore(first: bytes, after: bytes, count: nat)
    ensures var got, later := ParseMany(Frame(first) + after, count + 1), ParseMany(after, count);
            if |first| <= MAX_MESSAGE_LENGTH
            then got.Ok? == later.Ok? && (got.Ok? ==> got.value.0 == [first] + later.value.0
                                                      && got.value.0[1..] == later.value.0
                                                      && got.value.1 == later.value.1)
            else got.Ok? ==> got.value.0 != [] && got.value.0[0] != first
  {
    hide Parse, Frame;
    ParseFrame(first, after);
  }

  /** Framing: any sequence of messages is recovered in order, with exactly the bytes written
      consumed, if and only if none is longer than 65535 bytes. */
  lemma {:induction false} FramesAreRecovered(messages: seq<bytes>, rest: bytes)
    ensures ParseMany(Frames(messages) + rest, |messages|) == Ok((messages, rest)) <==> Fits(messages)
  {
    hide Parse, Frame;
    if messages == [] {
      assert Frames(messages) + rest == rest;
    } else {
      var first, more := messages[0], messages[1..];
      var after := Frames(more) + rest;
      assert Frames(messages) + rest == Frame(first) + after && messages == [first] + more;
      ParseMore(first, after, |more|);
      FramesAreRecovered(more, rest);
      assert Fits(messages) <==> |first| <= MAX_MESSAGE_LENGTH && Fits(more);
    }
  }

  /* ---- transport and plain connection ---- */

  /** A byte stream in each direction. A read returns any nonempty piece of what there is; a stream
      that has no more is at its end. */
  class Transport {
    var incoming: bytes
    var outgoing: bytes

    method Read(data: array<byte>, i: nat) returns (r: Result<nat, ConnError>)
      requires i < data.Length
      modifies this`incoming, data
      ensures r.Ok? <==> old(incoming) != []
      ensures r.Err? ==> incoming == old(incoming) && r.error == EndOfStream
      ensures r.Ok? ==> 1 <= r.value <= |old(incoming)| && i + r.value <= data.Length
      ensures r.Ok? ==> incoming == old(incoming)[r.value..]
      ensures r.Ok? ==> data[..i + r.value] == old(data[..i]) + old(incoming)[..r.value]
    {
      if incoming == [] {
        return Err(EndOfStream);
      }
      var n: nat :| 1 <= n && i + n <= data.Length && n <= |incoming|;
      forall k | 0 <= k < n { data[i + k] := incoming[k]; }
      incoming := incoming[n..];
      return Ok(n);
    }

    method Write(b: bytes)
      modifies this`outgoing
      ensures outgoing == old(outgoing) + b
    {
      outgoing := outgoing + b;
    }
  }

  class BaseConn {
    const conn: Transport

    constructor (conn: Transport)
      ensures this.conn == conn
    {
      this.conn := conn;
    }

    /** Read exactly dlen bytes, however the transport cuts them. */
    method MustRecv(dlen: u16) returns (r: Result<array<byte>, ConnError>)
      modifies conn`incoming
      ensures r.Ok? <==> |old(conn.incoming)| >= dlen
      ensures r.Ok? ==> fresh(r.value) && r.value[..] == old(conn.incoming)[..dlen]
                        && conn.incoming == old(conn.incoming)[dlen..]
      ensures r.Err? ==> r.error == EndOfStream && conn.incoming == []
    {
      ghost var stream := conn.incoming;
      var data := new byte[dlen];
      var i := 0;
      while i < dlen
        invariant 0 <= i <= dlen && i <= |stream|
        invariant data[..i] == stream[..i] && conn.incoming == stream[i..]
      {
        var n := conn.Read(data, i);
        if n.Err? {
          return Err(n.error);
        }
        i := i + n.value;
      }
      assert data[..i] == data[..];
      return Ok(data);
    }

    method Recv() returns (r: Result<bytes, ConnError>)
      modifies conn`incoming
      ensures var expected := Parse(old(conn.incoming));
              && (r.Ok? <==> expected.Ok?)
              && (r.Ok? ==> r.value == expected.value.0 && conn.incoming == expected.value.1)
    {
      ghost var stream := conn.incoming;
      var head := MustRecv(2);
      if head.Err? {
        return Err(head.error);
      }
      var message := MustRecv(GetU16(head.value[..]));
      if message.Err? {
        return Err(message.error);
      }
      ghost var n := GetU16(stream[..2]);
      assert stream[2..][..n] == stream[2..2 + n] && stream[2..][n..] == stream[2 + n..];
      return Ok(message.value[..]);
    }

    /** The length is converted to 16 bits before it is compared, so the limit never applies. */
    method Send(message: bytes) returns (r: Result<(), ConnError>)
      modifies conn`outgoing
      ensures r.Ok? && conn.outgoing == old(conn.outgoing) + Frame(message)
    {
      var dlen: u16 := ToU16(|message|);
      if dlen > MAX_MESSAGE_LENGTH {
        return Err(MaxLengthLimit);
      }
      var buf := PutU16(dlen);
      buf := buf + message;
      conn.Write(buf);
      return Ok(());
    }
  }

  /* ---- stream ciphers ---- */

  /** One byte through a stream cipher: the byte that comes out and the state that follows. */
  type Step<!S> = (S, byte) -> (byte, S)

  function Run<S>(step: Step<S>, s: S, b: bytes): (res: (bytes, S))
    ensures |res.0| == |b|
  {
    if b == [] then ([], s)
    else
      var (init, s') := Run(step, s, b[..|b| - 1]);
      var (c, s'') := step(s', b[|b| - 1]);
      (init + [c], s'')
  }

  /** Whatever the encryptor makes of a byte, the decryptor undoes, and the two stay related. */
  ghost predicate Lockstep<E(!new), D(!new)>(enc: Step<E>, dec: Step<D>, related: (E, D) -> bool) {
    forall e, d, b: byte :: related(e, d) ==>
      dec(d, enc(e, b).0).0 == b && related(enc(e, b).1, dec(d, enc(e, b).0).1)
  }

  lemma {:induction false} RunConcat<S>(step: Step<S>, s: S, a: bytes, b: bytes)
    ensures var (a', s') := Run(step, s, a); var (b', s'') := Run(step, s', b);
            Run(step, s, a + b) == (a' + b', s'')
  {
    if b == [] {
      assert a + b == a;
      assert Run(step, s, a).0 + [] == Run(step, s, a).0;
    } else {
      var init := b[..|b| - 1];
      RunConcat(step, s, a, init);
      assert (a + b)[..|a + b| - 1] == a + init;
      var (a', s') := Run(step, s, a);
      var (b', s'') := Run(step, s', init);
      var (c, _) := step(s'', b[|b| - 1]);
      assert (a' + b') + [c] == a' + (b' + [c]);
    }
  }

  lemma {:induction false} DecryptUndoesEncrypt<E(!new), D(!new)>(
    enc: Step<E>, dec: Step<D>, related: (E, D) -> bool, e: E, d: D, b: bytes)
    requires Lockstep(enc, dec, related) && related(e, d)
    ensures Run(dec, d, Run(enc, e, b).0).0 == b
    ensures related(Run(enc, e, b).1, Run(dec, d, Run(enc, e, b).0).1)
  {
    if b != [] {
      var init := b[..|b| - 1];
      DecryptUndoesEncrypt(enc, dec, related, e, d, init);
      var cipher := Run(enc, e, b).0;
      assert cipher[..|b| - 1] == Run(enc, e, init).0;
    }
  }

  /** b goes through the cipher byte by byte: st are the states on the way. */
  ghost predicate IsTrace<S>(step: Step<S>, st: seq<S>, b: bytes, out: bytes) {
    && |st| == |b| + 1 && |out| == |b|
    && forall i :: 0 <= i < |b| ==> step(st[i], b[i]) == (out[i], st[i + 1])
  }

  /** The cipher takes b to out, and its state from s to s'. */
  ghost predicate Ciphers<S(!new)>(step: Step<S>, s: S, b: bytes, out: bytes, s': S) {
    exists st :: IsTrace(step, st, b, out) && st[0] == s && st[|b|] == s'
  }

  /** `Run` is that, and nothing else is. */
  lemma {:induction false} RunCiphers<S(!new)>(step: Step<S>, s: S, b: bytes, out: bytes, s': S)
    ensures Ciphers(step, s, b, out, s') <==> Run(step, s, b) == (out, s')
  {
    if b == [] {
      assert Run(step, s, b) == (out, s') ==> IsTrace(step, [s], b, out);
    } else {
      var n := |b| - 1;
      if st :| IsTrace(step, st, b, out) && st[0] == s && st[|b|] == s' {
        assert IsTrace(step, st[..n + 1], b[..n], out[..n]);
        RunCiphers(step, s, b[..n], out[..n], st[n]);
        assert out == out[..n] + [out[n]];
      }
      if Run(step, s, b) == (out, s') {
        var (init, s0) := Run(step, s, b[..n]);
        RunCiphers(step, s, b[..n], init, s0);
        var st :| IsTrace(step, st, b[..n], init) && st[0] == s && st[n] == s0;
        assert IsTrace(step, st + [s'], b, out);
      }
    }
  }

  /** One stream of bytes, however it is cut: the second part goes on from the state that the first left. */
  lemma CiphersGoOn<S(!new)>(step: Step<S>, s: S, a: bytes, a': bytes, s': S, b: bytes, b': bytes, s'': S)
    requires Ciphers(step, s, a, a', s') && Ciphers(step, s', b, b', s'')
    ensures Ciphers(step, s, a + b, a' + b', s'')
  {
    RunCiphers(step, s, a, a', s');
    RunCiphers(step, s', b, b', s'');
    RunConcat(step, s, a, b);
    RunCiphers(step, s, a + b, a' + b', s'');
  }

  function Pow2(n: nat): nat { if n == 0 then 1 else 2 * Pow2(n - 1) }

  /** Exclusive or of the low `width` bits. */
  function XorBits(a: nat, b: nat, width: nat): (r: nat)
    ensures r < Pow2(width)
  {
    if width == 0 then 0 else 2 * XorBits(a / 2, b / 2, width - 1) + (if a % 2 == b % 2 then 0 else 1)
  }

  function Xor(a: byte, b: byte): byte {
    assert Pow2(8) == 0x100;
    XorBits(a, b, 8)
  }

  lemma {:induction false} XorTwice(a: nat, k: nat, width: nat)
    requires a < Pow2(width)
    ensures XorBits(XorBits(a, k, width), k, width) == a
  {
    if width > 0 {
      XorTwice(a / 2, k / 2, width - 1);
      assert XorBits(a, k, width) / 2 == XorBits(a / 2, k / 2, width - 1);
    }
  }

  /** Bit i of the result is set where the bits of a and b differ. */
  lemma {:induction false} XorIsBitwise(a: nat, b: nat, width: nat, i: nat)
    requires i < width
    ensures Bit(XorBits(a, b, width), i) <==> Bit(a, i) != Bit(b, i)
  {
    if i > 0 {
      XorIsBitwise(a / 2, b / 2, width - 1, i - 1);
      assert XorBits(a, b, width) / 2 == XorBits(a / 2, b / 2, width - 1);
    }
  }

  predicate Bit(a: nat, i: nat) { if i == 0 then a % 2 == 1 else Bit(a / 2, i - 1) }

  /** A cipher that adds a key byte drawn from its state, which may then absorb the ciphertext: RC4
      does not, CFB does. */
  function Encrypting<S>(key: S -> byte, absorb: (S, byte) -> S): Step<S> {
    (s: S, b: byte) => (Xor(b, key(s)), absorb(s, Xor(b, key(s))))
  }

  function Decrypting<S>(key: S -> byte, absorb: (S, byte) -> S): Step<S> {
    (s: S, c: byte) => (Xor(c, key(s)), absorb(s, c))
  }

  /** Each bit is flipped where the key byte has a bit, and both ends absorb the byte on the wire. */
  lemma KeyStreamsFlipBits<S>(key: S -> byte, absorb: (S, byte) -> S, s: S, b: byte, i: nat)
    requires i < 8
    ensures var (c, s') := Encrypting(key, absorb)(s, b);
            (Bit(c, i) <==> Bit(b, i) != Bit(key(s), i)) && s' == absorb(s, c)
    ensures var (m, s') := Decrypting(key, absorb)(s, b);
            (Bit(m, i) <==> Bit(b, i) != Bit(key(s), i)) && s' == absorb(s, b)
  {
    XorIsBitwise(b, key(s), 8, i);
  }

  /** Both ciphers of ecrypt/cipher.go keep their two ends in lockstep from equal states. */
  lemma KeyStreamsAreLockstep<S(!new)>(key: S -> byte, absorb: (S, byte) -> S)
    ensures Lockstep(Encrypting(key, absorb), Decrypting(key, absorb), (e: S, d: S) => e == d)
  {
    forall s: S, b: byte ensures Xor(Xor(b, key(s)), key(s)) == b {
      assert Pow2(8) == 0x100;
      XorTwice(b, key(s), 8);
    }
  }

  class Stream<S(!new)> {
    const step: Step<S>
    var state: S

    constructor (step: Step<S>, state: S)
      ensures this.step == step && this.state == state
    {
      this.step := step;
      this.state := state;
    }

    /** In place, and the state moves on. */
    method XORKeyStream(b: array<byte>)
      modifies this`state, b
      ensures (b[..], state) == Run(step, old(state), old(b[..]))
      ensures Ciphers(step, old(state), old(b[..]), b[..], state)
    {
      ghost var was, s0 := b[..], state;
      for i := 0 to b.Length
        invariant (b[..i], state) == Run(step, s0, was[..i])
        invariant b[i..] == was[i..]
      {
        assert b[i] == was[i] && was[..i + 1][..i] == was[..i];
        var (c, next) := step(state, b[i]);
        b[i] := c;
        state := next;
        assert b[..i + 1] == b[..i] + [c];
      }
      assert b[..b.Length] == b[..] && was[..b.Length] == was;
      RunCiphers(step, s0, was, b[..], state);
    }
  }

  /** What `SafeConn.Recv` reads: header and body are decrypted one after the other. */
  function SafeParse<D>(dec: Step<D>, d: D, stream: bytes): Result<(bytes, D, bytes), ConnError> {
    if |stream| < 2 then Err(EndOfStream)
    else
      var (head, d') := Run(dec, d, stream[..2]);
      var n := GetU16(head);
      if |stream| < 2 + n then Err(EndOfStream)
      else
        var (message, d'') := Run(dec, d', stream[2..2 + n]);
        Ok((message, d'', stream[2 + n..]))
  }

  class SafeConn<E(!new), D(!new)> {
    const base: BaseConn
    const enc: Stream<E>
    const dec: Stream<D>

    constructor (base: BaseConn, enc: Stream<E>, dec: Stream<D>)
      ensures this.base == base && this.enc == enc && this.dec == dec
    {
      this.base, this.enc, this.dec := base, enc, dec;
    }

    method Recv() returns (r: Result<bytes, ConnError>)
      modifies base.conn`incoming, dec`state
      ensures var expected := SafeParse(dec.step, old(dec.state), old(base.conn.incoming));
              && (r.Ok? <==> expected.Ok?)
              && (r.Ok? ==> (r.value, dec.state, base.conn.incoming) == expected.value)
      ensures r.Ok? ==>
                && |r.value| <= MAX_MESSAGE_LENGTH && 2 + |r.value| <= |old(base.conn.incoming)|
                && base.conn.incoming == old(base.conn.incoming)[2 + |r.value|..]
                && Ciphers(dec.step, old(dec.state), old(base.conn.incoming)[..2 + |r.value|],
                           PutU16(|r.value|) + r.value, dec.state)
    {
      ghost var stream := base.conn.incoming;
      var head := base.MustRecv(2);
      if head.Err? {
        return Err(head.error);
      }
      dec.XORKeyStream(head.value);
      ghost var n := GetU16(head.value[..]);
      var message := base.MustRecv(GetU16(head.value[..]));
      if message.Err? {
        return Err(message.error);
      }
      assert stream[2..][..n] == stream[2..2 + n] && stream[2..][n..] == stream[2 + n..];
      ghost var d := dec.state;
      dec.XORKeyStream(message.value);
      assert PutU16(n) == head.value[..] by { PutGetU16(head.value[..]); }
      CiphersGoOn(dec.step, old(dec.state), stream[..2], PutU16(n), d, stream[2..2 + n], message.value[..], dec.state);
      assert stream[..2] + stream[2..2 + n] == stream[..2 + n];
      return Ok(message.value[..]);
    }

    /** The whole frame is encrypted at once. */
    method Send(message: bytes) returns (r: Result<(), ConnError>)
      modifies base.conn`outgoing, enc`state
      ensures r.Ok?
      ensures var (b, s) := Run(enc.step, old(enc.state), Frame(message));
              base.conn.outgoing == old(base.conn.outgoing) + b && enc.state == s
      ensures var was := old(base.conn.outgoing);
              && |was| <= |base.conn.outgoing| && base.conn.outgoing[..|was|] == was
              && Ciphers(enc.step, old(enc.state), PutU16(ToU16(|message|)) + message,
                         base.conn.outgoing[|was|..], enc.state)
    {
      var dlen: u16 := ToU16(|message|);
      if dlen > MAX_MESSAGE_LENGTH {
        return Err(MaxLengthLimit);
      }
      var b := new byte[2 + |message|];
      StoreU16(b, 0, dlen);
      assert b[..2] == PutU16(dlen);
      forall i | 0 <= i < |message| { b[2 + i] := message[i]; }
      assert b[..2] == PutU16(dlen) && b[2..] == message;
      assert b[..] == Frame(message);
      enc.XORKeyStream(b);
      base.conn.Write(b[..]);
      return Ok(());
    }
  }

  /** One direction between two SafeConns: the encryptor, the bytes under way, the decryptor. */
  datatype Channel<E, D> = Channel(enc: E, wire: bytes, dec: D)

  /** The channel holds a queue of messages: the bytes under way are their frames, encrypted from a
      state related to the decryptor's. */
  ghost predicate Holds<E(!new), D>(enc: Step<E>, related: (E, D) -> bool, ch: Channel<E, D>, queue: seq<bytes>) {
    exists e :: related(e, ch.dec) && Run(enc, e, Frames(queue)) == (ch.wire, ch.enc)
  }

  lemma {:induction false} FramesAppend(messages: seq<bytes>, last: bytes)
    ensures Frames(messages + [last]) == Frames(messages) + Frame(last)
  {
    if messages == [] {
      assert [] + [last] == [last] && [last][1..] == [];
      assert Frame(last) + [] == Frame(last) && [] + Frame(last) == Frame(last);
    } else {
      assert (messages + [last])[1..] == messages[1..] + [last];
      FramesAppend(messages[1..], last);
    }
  }

  lemma EmptyChannel<E(!new), D(!new)>(enc: Step<E>, related: (E, D) -> bool, e: E, d: D)
    requires related(e, d)
    ensures Holds(enc, related, Channel(e, [], d), [])
  {
    assert Run(enc, e, Frames([])) == ([], e);
  }

  /** `Send` puts its message at the end of the queue. */
  lemma SendEnqueues<E(!new), D(!new)>(
    enc: Step<E>, related: (E, D) -> bool, ch: Channel<E, D>, queue: seq<bytes>, message: bytes)
    requires Holds(enc, related, ch, queue)
    ensures var (b, s) := Run(enc, ch.enc, Frame(message));
            Holds(enc, related, ch.(wire := ch.wire + b, enc := s), queue + [message])
  {
    var e :| related(e, ch.dec) && Run(enc, e, Frames(queue)) == (ch.wire, ch.enc);
    FramesAppend(queue, message);
    RunConcat(enc, e, Frames(queue), Frame(message));
  }

  /** Header, body and the rest of a stream. */
  lemma SafeParseParts<D>(dec: Step<D>, d: D, h: bytes, m: bytes, rest: bytes)
    requires |h| == 2 && GetU16(Run(dec, d, h).0) == |m|
    ensures var (message, d') := Run(dec, Run(dec, d, h).1, m);
            SafeParse(dec, d, (h + m) + rest) == Ok((message, d', rest))
  {
    hide Run;
    var stream := (h + m) + rest;
    assert stream[..2] == h && stream[2..2 + |m|] == m && stream[2 + |m|..] == rest;
  }

  /** One encrypted frame, in front of anything, is received as its message. */
  lemma SafeParseFrame<E(!new), D(!new)>(
    enc: Step<E>, dec: Step<D>, related: (E, D) -> bool, e: E, d: D, message: bytes, rest: bytes)
    requires Lockstep(enc, dec, related) && related(e, d) && |message| <= MAX_MESSAGE_LENGTH
    ensures var (b, e') := Run(enc, e, Frame(message));
            var r := SafeParse(dec, d, b + rest);
            r.Ok? && r.value.0 == message && r.value.2 == rest && related(e', r.value.1)
  {
    hide Run, Lockstep, SafeParse, PutU16, GetU16;
    var head := PutU16(|message|);
    assert Frame(message) == head + message;
    hide Frame;
    var (h, e1) := Run(enc, e, head);
    var (m, e2) := Run(enc, e1, message);
    RunConcat(enc, e, head, message);
    DecryptUndoesEncrypt(enc, dec, related, e, d, head);
    DecryptUndoesEncrypt(enc, dec, related, e1, Run(dec, d, h).1, message);
    SafeParseParts(dec, d, h, m, rest);
  }

  /** One that is too long is received as something shorter. */
  lemma SafeParseLong<E(!new), D(!new)>(
    enc: Step<E>, dec: Step<D>, related: (E, D) -> bool, e: E, d: D, message: bytes, rest: bytes)
    requires Lockstep(enc, dec, related) && related(e, d) && |message| > MAX_MESSAGE_LENGTH
    ensures var r := SafeParse(dec, d, Run(enc, e, Frame(message)).0 + rest);
            r.Ok? && |r.value.0| < |message|
  {
    var head := PutU16(ToU16(|message|));
    var (h, e1) := Run(enc, e, head);
    RunConcat(enc, e, head, message);
    DecryptUndoesEncrypt(enc, dec, related, e, d, head);
    var (m, _) := Run(enc, e1, message);
    var stream := (h + m) + rest;
    hide Run, Lockstep, PutU16;
    assert stream[..2] == h;
  }

  /** `Recv` takes the message at the front of the queue, if it is not too long; with none, there is
      nothing to read. */
  lemma RecvDequeues<E(!new), D(!new)>(
    enc: Step<E>, dec: Step<D>, related: (E, D) -> bool, ch: Channel<E, D>, queue: seq<bytes>)
    requires Lockstep(enc, dec, related) && Holds(enc, related, ch, queue)
    ensures var r := SafeParse(dec, ch.dec, ch.wire);
            && (r.Ok? <==> queue != [])
            && (r.Ok? && |queue[0]| <= MAX_MESSAGE_LENGTH ==>
                  r.value.0 == queue[0]
                  && Holds(enc, related, ch.(dec := r.value.1, wire := r.value.2), queue[1..]))
            && (r.Ok? && |queue[0]| > MAX_MESSAGE_LENGTH ==> r.value.0 != queue[0])
  {
    if queue != [] {
      var e :| related(e, ch.dec) && Run(enc, e, Frames(queue)) == (ch.wire, ch.enc);
      var first, more := Frame(queue[0]), Frames(queue[1..]);
      RunConcat(enc, e, first, more);
      var (b, e1) := Run(enc, e, first);
      if |queue[0]| <= MAX_MESSAGE_LENGTH {
        SafeParseFrame(enc, dec, related, e, ch.dec, queue[0], Run(enc, e1, more).0);
      } else {
        SafeParseLong(enc, dec, related, e, ch.dec, queue[0], Run(enc, e1, more).0);
      }
    }
  }

  /** A run of the two ends: Some(m) sends m, None receives. */
  ghost function RunChannel<E, D>(enc: Step<E>, dec: Step<D>, ch: Channel<E, D>, ops: seq<Option<bytes>>)
    : (Channel<E, D>, seq<bytes>)
  {
    if ops == [] then (ch, [])
    else
      var n := |ops| - 1;
      var (c, got) := RunChannel(enc, dec, ch, ops[..n]);
      match ops[n]
      case Some(m) => var (b, s) := Run(enc, c.enc, Frame(m)); (c.(wire := c.wire + b, enc := s), got)
      case None =>
        match SafeParse(dec, c.dec, c.wire)
        case Err(_) => (c, got)
        case Ok((m, d, rest)) => (c.(dec := d, wire := rest), got + [m])
  }

  ghost function Sent(ops: seq<Option<bytes>>): seq<bytes> {
    if ops == [] then []
    else Sent(ops[..|ops| - 1]) + (if ops[|ops| - 1].Some? then [ops[|ops| - 1].value] else [])
  }

  /** How many receives find a message. */
  ghost function Received(ops: seq<Option<bytes>>): (n: nat)
    ensures n <= |Sent(ops)|
  {
    if ops == [] then 0
    else
      var n := Received(ops[..|ops| - 1]);
      if ops[|ops| - 1].None? && n < |Sent(ops)| then n + 1 else n
  }

  /** Some message that was received is not the one that was sent. */
  ghost predicate Differs(got: seq<bytes>, sent: seq<bytes>) {
    exists j :: 0 <= j < |got| && j < |sent| && got[j] != sent[j]
  }

  lemma StillDiffers(got: seq<bytes>, sent: seq<bytes>, got': seq<bytes>, sent': seq<bytes>)
    requires Differs(got, sent) && got <= got' && sent <= sent'
    ensures Differs(got', sent')
  {
  }

  /** What a run has received, and what it leaves under way, while no message was too long. */
  ghost predicate IsQueue<E(!new), D(!new)>(
    enc: Step<E>, related: (E, D) -> bool, ch: Channel<E, D>, got: seq<bytes>, sent: seq<bytes>, k: nat)
    requires k <= |sent|
  {
    got == sent[..k] && Holds(enc, related, ch, sent[k..])
  }

  lemma ReceiveStep<E(!new), D(!new)>(
    enc: Step<E>, dec: Step<D>, related: (E, D) -> bool, ch: Channel<E, D>, got: seq<bytes>, sent: seq<bytes>, k: nat)
    requires Lockstep(enc, dec, related) && k < |sent| && IsQueue(enc, related, ch, got, sent, k)
    ensures var r := SafeParse(dec, ch.dec, ch.wire);
            && r.Ok?
            && var ch' := ch.(dec := r.value.1, wire := r.value.2);
               if |sent[k]| <= MAX_MESSAGE_LENGTH then IsQueue(enc, related, ch', got + [r.value.0], sent, k + 1)
               else Differs(got + [r.value.0], sent[..k + 1])
  {
    RecvDequeues(enc, dec, related, ch, sent[k..]);
    hide Lockstep, SafeParse, Holds;
    assert sent[k..][1..] == sent[k + 1..] && sent[..k + 1] == sent[..k] + [sent[k]];
    var r := SafeParse(dec, ch.dec, ch.wire);
    assert (got + [r.value.0])[k] == r.value.0 && sent[..k + 1][k] == sent[k];
  }

  lemma FitsMore(sent: seq<bytes>, k: nat)
    requires k < |sent|
    ensures Fits(sent[..k + 1]) <==> Fits(sent[..k]) && |sent[k]| <= MAX_MESSAGE_LENGTH
  {
    assert sent[..k + 1] == sent[..k] + [sent[k]];
  }

  /** The run so far is a queue, or has gone wrong for good. */
  lemma {:induction false} QueueOrDiffers<E(!new), D(!new)>(
    enc: Step<E>, dec: Step<D>, related: (E, D) -> bool, e: E, d: D, ops: seq<Option<bytes>>)
    requires Lockstep(enc, dec, related) && related(e, d)
    ensures var (ch, got) := RunChannel(enc, dec, Channel(e, [], d), ops); var sent, k := Sent(ops), Received(ops);
            if Fits(sent[..k]) then IsQueue(enc, related, ch, got, sent, k) else Differs(got, sent[..k])
  {
    hide Lockstep, Holds, SafeParse, Frame, Fits, Differs;
    if ops == [] {
      EmptyChannel(enc, related, e, d);
      assert Fits([]) by { NoneTooLong(); }
    } else {
      hide Run;
      var n := |ops| - 1;
      var before, sent, k := ops[..n], Sent(ops[..n]), Received(ops[..n]);
      QueueOrDiffers(enc, dec, related, e, d, before);
      var (ch, got) := RunChannel(enc, dec, Channel(e, [], d), before);
      match ops[n] {
        case Some(m) =>
          assert (sent + [m])[..k] == sent[..k] && (sent + [m])[k..] == sent[k..] + [m];
          if Fits(sent[..k]) { SendEnqueues(enc, related, ch, sent[k..], m); }
        case None =>
          assert sent + [] == sent;
          if k < |sent| {
            FitsMore(sent, k);
            var (_, got') := RunChannel(enc, dec, Channel(e, [], d), ops);
            if Fits(sent[..k]) {
              ReceiveStep(enc, dec, related, ch, got, sent, k);
            } else {
              StillDiffers(got, sent[..k], got', sent[..k + 1]);
            }
          } else if Fits(sent[..k]) {
            RecvDequeues(enc, dec, related, ch, sent[k..]);
          } else {
            var (_, got') := RunChannel(enc, dec, Channel(e, [], d), ops);
            StillDiffers(got, sent[..k], got', sent[..k]);
          }
      }
    }
  }

  lemma NoneTooLong()
    ensures Fits([])
  {
  }

  /** Encrypted streams: for every cipher whose ends step together and every interleaving of sends and
      receives, the k-th successful receive returns the k-th message sent, a receive fails only when all
      sent so far has been received, and what is left under way is exactly the rest, if and only if none
      of the messages received is longer than 65535 bytes. */
  lemma SafeConnIsAQueue<E(!new), D(!new)>(
    enc: Step<E>, dec: Step<D>, related: (E, D) -> bool, e: E, d: D, ops: seq<Option<bytes>>)
    requires Lockstep(enc, dec, related) && related(e, d)
    ensures var (ch, got) := RunChannel(enc, dec, Channel(e, [], d), ops);
            got == Sent(ops)[..Received(ops)] && Holds(enc, related, ch, Sent(ops)[Received(ops)..])
            <==> Fits(Sent(ops)[..Received(ops)])
  {
    QueueOrDiffers(enc, dec, related, e, d, ops);
    hide RunChannel, Holds, Fits, Lockstep;
  }

  /** Of a run: `read` is what has been taken off the wire. */
  ghost predicate IsOneStream<E(!new), D(!new)>(enc: Step<E>, e: E, ch: Channel<E, D>, sent: seq<bytes>, read: bytes) {
    Ciphers(enc, e, Frames(sent), read + ch.wire, ch.enc)
  }

  /** All that is ever written is one stream: the frames of all messages, enciphered one byte after the
      other from the first state, whatever has been read in between. */
  lemma {:induction false} ChannelIsOneStream<E(!new), D(!new)>(
    enc: Step<E>, dec: Step<D>, e: E, d: D, ops: seq<Option<bytes>>) returns (read: bytes)
    ensures IsOneStream(enc, e, RunChannel(enc, dec, Channel(e, [], d), ops).0, Sent(ops), read)
  {
    hide Run, Frame;
    if ops == [] {
      NoneThrough(enc, e);
      read := [];
    } else {
      var n := |ops| - 1;
      read := ChannelIsOneStream(enc, dec, e, d, ops[..n]);
      var (ch, _) := RunChannel(enc, dec, Channel(e, [], d), ops[..n]);
      match ops[n] {
        case Some(m) =>
          var (b, s) := Run(enc, ch.enc, Frame(m));
          RunCiphers(enc, ch.enc, Frame(m), b, s);
          CiphersGoOn(enc, e, Frames(Sent(ops[..n])), read + ch.wire, ch.enc, Frame(m), b, s);
          FramesAppend(Sent(ops[..n]), m);
          assert (read + ch.wire) + b == read + (ch.wire + b);
        case None =>
          assert Sent(ops) == Sent(ops[..n]) + [] == Sent(ops[..n]);
          match SafeParse(dec, ch.dec, ch.wire) {
            case Err(_) =>
            case Ok((m, d', rest)) =>
              var taken := ch.wire[..|ch.wire| - |rest|];
              assert read + ch.wire == (read + taken) + rest;
              read := read + taken;
          }
      }
    }
  }

  lemma NoneThrough<S(!new)>(step: Step<S>, s: S)
    ensures Ciphers(step, s, [], [], s)
  {
    RunCiphers(step, s, [], [], s);
  }
}
