/**
 * The length-prefixed wire protocol of frigate/network.py: `NPSocket.send`
 * writes a 4-byte signed big-endian length and then the payload;
 * `NPSocket.recv` reads the header (raising `Closed` on a short one) and then
 * accumulates the body in chunks of at most 1024 bytes. The payload (a numpy
 * NPY file in the source) is treated as opaque bytes.
 */
module Network {
  import opened Base

  newtype byte = x: int | 0 <= x < 256

  const TWO_31: int := 0x8000_0000
  const TWO_32: int := 0x1_0000_0000
  const HEADER_SIZE: nat := 4
  const CHUNK_SIZE: nat := 1024

  /** The range of `struct.pack("!i", n)`: a signed 32-bit integer. */
  predicate FitsI32(n: int) { -TWO_31 <= n < TWO_31 }

  /** `struct.pack("!i", n)`: four bytes, big-endian, two's complement. */
  function PackI32(n: int): (b: seq<byte>)
    requires FitsI32(n)
    ensures |b| == HEADER_SIZE
    ensures b[0] >= 128 <==> n < 0
  {
    var u := if n < 0 then n + TWO_32 else n;
    [(u / 0x100_0000) as byte, (u / 0x1_0000 % 256) as byte, (u / 0x100 % 256) as byte, (u % 256) as byte]
  }

  /** `struct.unpack("!i", b)[0]` on a 4-byte header. */
  function UnpackI32(b: seq<byte>): (n: int)
    requires |b| == HEADER_SIZE
    ensures FitsI32(n)
    ensures n < 0 <==> b[0] >= 128
  {
    var u := b[0] as int * 0x100_0000 + b[1] as int * 0x1_0000 + b[2] as int * 0x100 + b[3] as int;
    if u >= TWO_31 then u - TWO_32 else u
  }

  /** Splitting an unsigned 32-bit value into four digits base 256 and joining them again. */
  lemma DigitsJoin(u: int)
    requires 0 <= u < TWO_32
    ensures (u / 0x100_0000) * 0x100_0000 + (u / 0x1_0000 % 256) * 0x1_0000
            + (u / 0x100 % 256) * 0x100 + u % 256 == u
  {
    assert u == (u / 0x100) * 0x100 + u % 256;
    assert u / 0x100 == (u / 0x1_0000) * 256 + u / 0x100 % 256;
    assert u / 0x1_0000 == (u / 0x100_0000) * 256 + u / 0x1_0000 % 256;
  }

  /** Joining four digits base 256 and splitting the result gives the digits back. */
  lemma DigitsSplit(b0: int, b1: int, b2: int, b3: int)
    requires 0 <= b0 < 256 && 0 <= b1 < 256 && 0 <= b2 < 256 && 0 <= b3 < 256
    ensures var u := b0 * 0x100_0000 + b1 * 0x1_0000 + b2 * 0x100 + b3;
      u / 0x100_0000 == b0 && u / 0x1_0000 % 256 == b1 && u / 0x100 % 256 == b2 && u % 256 == b3
  {
    var u := b0 * 0x100_0000 + b1 * 0x1_0000 + b2 * 0x100 + b3;
    var v := b0 * 0x1_0000 + b1 * 0x100 + b2;
    assert u == v * 0x100 + b3;
    assert u / 0x100 == v;
    var w := b0 * 0x100 + b1;
    assert v == w * 0x100 + b2;
    assert v / 0x100 == w;
    assert u / 0x1_0000 == w by {
      assert u == w * 0x1_0000 + (b2 * 0x100 + b3);
    }
    assert u / 0x100_0000 == b0 by {
      assert u == b0 * 0x100_0000 + (b1 * 0x1_0000 + b2 * 0x100 + b3);
    }
  }

  /** Unpacking a packed header gives the original length back, for every signed 32-bit value. */
  lemma UnpackPack(n: int)
    requires FitsI32(n)
    ensures UnpackI32(PackI32(n)) == n
  {
    var u := if n < 0 then n + TWO_32 else n;
    DigitsJoin(u);
  }

  /** Packing an unpacked header gives the same four bytes back. */
  lemma PackUnpack(b: seq<byte>)
    requires |b| == HEADER_SIZE
    ensures PackI32(UnpackI32(b)) == b
  {
    DigitsSplit(b[0] as int, b[1] as int, b[2] as int, b[3] as int);
  }

  /** The bytes `NPSocket.send` writes for one payload, or None when packing its length raises `struct.error`. */
  function EncodeFrame(payload: seq<byte>): (f: Option<seq<byte>>)
    ensures f.Some? <==> |payload| < TWO_31
    ensures f.Some? ==> |f.value| == HEADER_SIZE + |payload| && f.value[HEADER_SIZE..] == payload
  {
    if |payload| < TWO_31 then Some(PackI32(|payload|) + payload) else None
  }

  /** What one `NPSocket.recv` produces: a payload, or the `Closed` exception. */
  datatype Received = Frame(payload: seq<byte>) | Closed

  /** The outcome of one `recv` together with the number of stream bytes it consumed. */
  datatype Parse = Parse(result: Received, consumed: nat)

  /**
   * Reference meaning of `NPSocket.recv` on the bytes still unread: a short
   * header is `Closed`; a declared length of zero or less yields an empty body;
   * a body cut short by the peer's shutdown is `Closed` (see Findings).
   */
  function ParseFrame(s: seq<byte>): (p: Parse)
    ensures p.consumed <= |s|
    ensures p.result.Closed? ==> p.consumed == |s|
    ensures p.result.Frame? ==> HEADER_SIZE <= p.consumed && p.result.payload == s[HEADER_SIZE..p.consumed]
  {
    if |s| < HEADER_SIZE then Parse(Closed, |s|)
    else
      var length := UnpackI32(s[..HEADER_SIZE]);
      if length <= 0 then Parse(Frame([]), HEADER_SIZE)
      else if |s| - HEADER_SIZE < length then Parse(Closed, |s|)
      else Parse(Frame(s[HEADER_SIZE..HEADER_SIZE + length]), HEADER_SIZE + length)
  }

  /** Round trip: a frame written by `send`, followed by anything, is received as the original payload and nothing more is consumed. */
  lemma FrameRoundTrip(payload: seq<byte>, rest: seq<byte>)
    requires |payload| < TWO_31
    ensures ParseFrame(EncodeFrame(payload).value + rest) == Parse(Frame(payload), HEADER_SIZE + |payload|)
  {
    var s := EncodeFrame(payload).value + rest;
    assert s[..HEADER_SIZE] == PackI32(|payload|);
    UnpackPack(|payload|);
    assert s[HEADER_SIZE..HEADER_SIZE + |payload|] == payload;
  }

  /** Conversely, every non-empty payload `recv` accepts is exactly what `send` writes for it. */
  lemma FrameOrigin(s: seq<byte>)
    requires ParseFrame(s).result.Frame? && ParseFrame(s).result.payload != []
    ensures EncodeFrame(ParseFrame(s).result.payload) == Some(s[..ParseFrame(s).consumed])
  {
    var p := ParseFrame(s);
    PackUnpack(s[..HEADER_SIZE]);
    assert s[..p.consumed] == s[..HEADER_SIZE] + s[HEADER_SIZE..p.consumed];
  }

  /** An empty payload is received exactly when the declared length is zero or negative. */
  lemma EmptyFrame(s: seq<byte>)
    requires |s| >= HEADER_SIZE
    ensures ParseFrame(s).result == Frame([]) <==> UnpackI32(s[..HEADER_SIZE]) <= 0
  {
  }

  /** How many bytes one `socket.recv(n)` hands over: bounded by the request, the grant of the network and what the peer has left. */
  function ChunkLength(n: int, grant: Grant, available: nat): (k: nat)
    requires n >= 1
    ensures k <= n && k <= available
    ensures k == 0 <==> available == 0
  {
    Min(n, Min(grant, available))
  }

  /**
   * One iteration of the body loop of `recv` AS WRITTEN, on the number of body
   * bytes received so far: request `min(1024, remain)`, append what arrives,
   * recompute `remain`. A zero-byte read is not checked for.
   */
  function BodyStepAsWritten(length: int, received: nat, grant: Grant, available: nat): (r: nat)
    requires received < length
    ensures received <= r <= length
  {
    var remain := length - received;
    var n := if CHUNK_SIZE > remain then remain else CHUNK_SIZE;
    received + ChunkLength(n, grant, available)
  }

  /**
   * Finding: once the peer has shut down (nothing left to read) while body
   * bytes are still owed, the as-written iteration leaves the state unchanged,
   * so the guard `remain > 0` stays true and the loop never ends.
   */
  lemma BodyLoopAsWrittenStalls(length: int, received: nat, grant: Grant)
    requires received < length
    ensures BodyStepAsWritten(length, received, grant, 0) == received
    ensures length - BodyStepAsWritten(length, received, grant, 0) > 0
  {
  }

  /** A body read `recv(size)`, made when the stream had been read up to position `at`. */
  datatype ReadCall = ReadCall(size: int, at: nat)

  /** The body bytes still owed once `received` of the declared `length` have arrived. */
  function Owed(length: int, received: int): int { length - received }

  /** How much one `socket.recv(n)` call may return; each grant is at least one byte. */
  type Grant = g: int | g >= 1 witness 1

  /**
   * An `NPSocket` with the state of its stream socket: the bytes the peer sends
   * before shutting down its side, a read cursor, the schedule of partial reads
   * the network imposes, the bytes written, and whether `close` was called.
   */
  class NPSocket {
    var incoming: seq<byte>
    var pos: nat
    var grants: seq<Grant>
    var outgoing: seq<byte>
    var closed: bool
    /** Each body read `recv(n)` made, in order. */
    ghost var requests: seq<ReadCall>

    ghost predicate Valid()
      reads this
    {
      pos <= |incoming|
    }

    ghost function Unread(): seq<byte>
      reads this
      requires Valid()
    {
      incoming[pos..]
    }

    constructor (incoming: seq<byte>, grants: seq<Grant>)
      ensures Valid()
      ensures this.incoming == incoming && pos == 0 && this.grants == grants
      ensures outgoing == [] && !closed && requests == []
    {
      this.incoming := incoming;
      this.grants := grants;
      pos := 0;
      outgoing := [];
      closed := false;
      requests := [];
    }

    /** `socket.sendall`. */
    method SendAll(bytes: seq<byte>)
      modifies this`outgoing
      ensures outgoing == old(outgoing) + bytes
    {
      outgoing := outgoing + bytes;
    }

    /** `socket.close`. */
    method Close()
      modifies this`closed
      ensures closed
    {
      closed := true;
    }

    /** `socket.recv(n, MSG_WAITALL)`: all n bytes, unless the peer shut down first. */
    method RecvWaitAll(n: nat) returns (chunk: seq<byte>)
      requires Valid()
      modifies this`pos
      ensures Valid()
      ensures chunk == old(Unread())[..Min(n, |old(Unread())|)]
      ensures pos == old(pos) + |chunk|
    {
      var k := Min(n, |incoming| - pos);
      chunk := incoming[pos..pos + k];
      pos := pos + k;
    }

    /** `socket.recv(n)`: at most n bytes, as many as the next grant allows; none only once the peer has shut down and all is read. */
    method RecvSome(n: int) returns (chunk: seq<byte>)
      requires Valid() && n >= 1
      modifies this`pos, this`grants, this`requests
      ensures Valid()
      ensures |chunk| <= n && |chunk| <= |old(Unread())|
      ensures |chunk| == 0 <==> old(pos) == |incoming|
      ensures chunk == old(Unread())[..|chunk|]
      ensures pos == old(pos) + |chunk|
      ensures grants == if old(grants) == [] then [] else old(grants)[1..]
      ensures requests == old(requests) + [ReadCall(n, old(pos))]
    {
      var grant: Grant := if grants == [] then n else grants[0];
      var k := ChunkLength(n, grant, |incoming| - pos);
      requests := requests + [ReadCall(n, pos)];
      chunk := incoming[pos..pos + k];
      pos := pos + k;
      if grants != [] {
        grants := grants[1..];
      }
    }

    /** `NPSocket.send`: the header, then the payload; nothing is written when the length does not fit the header. */
    method Send(payload: seq<byte>) returns (sent: bool)
      modifies this`outgoing
      ensures sent <==> |payload| < TWO_31
      ensures outgoing == old(outgoing) + (if sent then EncodeFrame(payload).value else [])
    {
      if |payload| >= TWO_31 {
        return false;
      }
      SendAll(PackI32(|payload|));
      SendAll(payload);
      return true;
    }

    /**
     * `NPSocket.recv`: the result is that of ParseFrame on the unread bytes,
     * whatever the schedule of partial reads; every body read asks for
     * between 1 and 1024 bytes, and a short header or a non-positive length
     * performs no body read at all.
     */
    method Recv() returns (r: Received)
      requires Valid()
      modifies this`pos, this`grants, this`requests, this`closed
      ensures Valid() && incoming == old(incoming)
      ensures r == ParseFrame(old(Unread())).result
      ensures pos == old(pos) + ParseFrame(old(Unread())).consumed
      ensures closed == (old(closed) || r.Closed?)
      ensures |grants| <= |old(grants)| && grants == old(grants)[|old(grants)| - |grants|..]
      ensures |old(requests)| <= |requests| && requests[..|old(requests)|] == old(requests)
      ensures |old(Unread())| >= HEADER_SIZE ==>
        var length := UnpackI32(old(Unread())[..HEADER_SIZE]);
        forall j | |old(requests)| <= j < |requests| ::
          Owed(length, requests[j].at - (old(pos) + HEADER_SIZE)) >= 1
          && requests[j].size == Min(CHUNK_SIZE, Owed(length, requests[j].at - (old(pos) + HEADER_SIZE)))
      ensures |old(Unread())| < HEADER_SIZE ==> requests == old(requests)
      ensures |old(Unread())| >= HEADER_SIZE && UnpackI32(old(Unread())[..HEADER_SIZE]) <= 0 ==> requests == old(requests)
    {
      ghost var s := Unread();
      var header := RecvWaitAll(HEADER_SIZE);
      if |header| != HEADER_SIZE {
        Close();
        return Closed;
      }
      assert header == s[..HEADER_SIZE];
      var length := UnpackI32(header);
      var data: seq<byte> := [];
      var remain := length;
      while remain > 0
        invariant Valid() && incoming == old(incoming)
        invariant s == incoming[old(pos)..]
        invariant remain == length - |data|
        invariant |data| <= Max(length, 0)
        invariant HEADER_SIZE + |data| <= |s|
        invariant data == s[HEADER_SIZE..HEADER_SIZE + |data|]
        invariant pos == old(pos) + HEADER_SIZE + |data|
        invariant closed == old(closed)
        invariant |grants| <= |old(grants)| && grants == old(grants)[|old(grants)| - |grants|..]
        invariant |old(requests)| <= |requests| && requests[..|old(requests)|] == old(requests)
        invariant forall j | |old(requests)| <= j < |requests| ::
          Owed(length, requests[j].at - (old(pos) + HEADER_SIZE)) >= 1
          && requests[j].size == Min(CHUNK_SIZE, Owed(length, requests[j].at - (old(pos) + HEADER_SIZE)))
        invariant length <= 0 ==> requests == old(requests)
        decreases remain
      {
        var n := CHUNK_SIZE;
        if n > remain {
          n := remain;
        }
        assert Unread() == s[HEADER_SIZE + |data|..];
        var chunk := RecvSome(n);
        if chunk == [] {
          // The peer shut down with body bytes still owed (see Findings).
          Close();
          return Closed;
        }
        assert chunk == s[HEADER_SIZE + |data|..HEADER_SIZE + |data| + |chunk|];
        data := data + chunk;
        remain := length - |data|;
      }
      return Frame(data);
    }
  }
  /**
   * Round trip over any schedule of partial reads: the bytes one socket's
   * `send` writes, arriving at another socket followed by anything, are
   * received there by `recv` as the original payload.
   */
  method SendThenRecv(payload: seq<byte>, rest: seq<byte>, grants: seq<Grant>) returns (sent: bool, r: Received)
    ensures sent <==> |payload| < TWO_31
    ensures sent ==> r == Frame(payload)
  {
    var writer := new NPSocket([], []);
    sent := writer.Send(payload);
    var reader := new NPSocket(writer.outgoing + rest, grants);
    if sent {
      assert reader.Unread() == EncodeFrame(payload).value + rest;
      FrameRoundTrip(payload, rest);
    }
    r := reader.Recv();
  }

  /** How the callback run by `listen_and_serve`'s per-connection `handler` ends. */
  datatype HandlerExit = Returned | RaisedClosed | Raised(reason: string)

  datatype LogLine = Info(text: string) | Warning(text: string)

  /** What the per-connection `handler` then does: the line it logs, whether it closes the socket, whether it re-raises. */
  datatype Disposition = Disposition(log: LogLine, closesSocket: bool, reraises: bool)

  /**
   * The exception policy of `handler`: `Closed` is swallowed like a normal
   * return and reaches the final close; any other exception is logged and
   * re-raised before that close is reached.
   */
  function HandlerPolicy(e: HandlerExit): (d: Disposition)
    ensures d.reraises <==> e.Raised?
    ensures d.closesSocket <==> !d.reraises
    ensures d.log == if e.Raised? then Warning("Handler failed") else Info("Closed")
  {
    match e
    case Raised(_) => Disposition(Warning("Handler failed"), false, true)
    case _ => Disposition(Info("Closed"), true, false)
  }
}
