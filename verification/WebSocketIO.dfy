/**
 The terminal's frame routines as they run: a socket that delivers a byte stream in arbitrary
 pieces, the exact-read loop, the frame reader shared by socket and buffer, and the writers.
 Every routine is proved against the wire form and the reader of module `WebSocket`.
 */
module WebSocketIO {
  import opened Bytes
  import opened Common
  import opened WebSocket

  /** One answer of `recv`: data (no data at all means end of stream), a timeout, or an OS error. */
  datatype Recv = Chunk(data: bytes) | TimedOut | Failed {
    predicate HasData() { Chunk? && data != [] }
  }

  /** The octets that arrive before the stream first stops. */
  function Available(s: seq<Recv>): bytes
  {
    if s == [] || !s[0].HasData() then [] else s[0].data + Available(s[1..])
  }

  /** How the stream first stops. */
  function Stop(s: seq<Recv>): (r: Recv)
    ensures !r.HasData()
  {
    if s == [] then Chunk([])
    else if s[0].HasData() then Stop(s[1..])
    else s[0]
  }

  /** The end points of the conversation: answers still to come from the peer, octets sent to it. */
  class Socket {
    var incoming: seq<Recv>
    var sent: bytes

    constructor (answers: seq<Recv>)
      ensures incoming == answers && sent == []
    {
      incoming, sent := answers, [];
    }

    /** At most `n` octets of the next piece; what is left of the piece stays for the next call. */
    method Receive(n: nat) returns (r: Recv)
      requires n > 0
      modifies this`incoming
      ensures r.HasData() ==>
        && |r.data| <= n
        && old(Available(incoming)) == r.data + Available(incoming)
        && Stop(incoming) == old(Stop(incoming))
      ensures !r.HasData() ==> old(Available(incoming)) == [] && r == old(Stop(incoming))
    {
      if incoming == [] {
        return Chunk([]);
      }
      r := incoming[0];
      if r.HasData() && |r.data| > n {
        var left := Chunk(r.data[n..]);
        incoming := [left] + incoming[1..];
        assert incoming[1..] == old(incoming)[1..];
        assert r.data == r.data[..n] + left.data;
        r := Chunk(r.data[..n]);
      } else {
        incoming := incoming[1..];
      }
    }

    method SendAll(data: bytes)
      modifies this`sent
      ensures sent == old(sent) + data
    {
      sent := sent + data;
    }
  }

  /** A read that came back whole, came back with nothing, or raised an OS error. */
  datatype ReadResult = Got(data: bytes) | Missing | Raised

  /** What a read that cannot be satisfied comes back with. */
  function CutOff(s: seq<Recv>): ReadResult
  {
    if Stop(s).Failed? then Raised else Missing
  }

  /** Read exactly `n` octets, however the stream is cut into pieces. */
  method ReadExact(sock: Socket, n: nat) returns (r: ReadResult)
    modifies sock`incoming
    ensures var a := old(Available(sock.incoming));
      if n <= |a| then
        r == Got(a[..n]) && Available(sock.incoming) == a[n..] && Stop(sock.incoming) == old(Stop(sock.incoming))
      else
        r == old(CutOff(sock.incoming))
  {
    ghost var stream := Available(sock.incoming);
    var buf: bytes := [];
    assert [] + stream == stream;
    while |buf| < n
      invariant |buf| <= n && stream == buf + Available(sock.incoming)
      invariant Stop(sock.incoming) == old(Stop(sock.incoming))
      decreases n - |buf|
    {
      ghost var front := buf;
      var chunk := sock.Receive(n - |buf|);
      if !chunk.HasData() {
        assert |stream| == |front|;
        return if chunk.Failed? then Raised else Missing;
      }
      Associates(front, chunk.data, Available(sock.incoming));
      buf := buf + chunk.data;
    }
    SplitConcat(buf, Available(sock.incoming));
    return Got(buf);
  }

  /** The local read of the frame reader: from the buffer while it has anything, else from the socket, else nothing. */
  method ReadFrom(sock: Socket?, remaining: bytes, n: nat) returns (r: ReadResult, left: bytes)
    modifies (if sock == null then {} else {sock})`incoming
    ensures remaining != [] ==>
      && r == (if n <= |remaining| then Got(remaining[..n]) else Missing)
      && left == (if n <= |remaining| then remaining[n..] else [])
      && (sock != null ==> sock.incoming == old(sock.incoming))
    ensures remaining == [] ==> left == []
    ensures remaining == [] && sock == null ==> r == Missing
    ensures remaining == [] && sock != null ==>
      var a := old(Available(sock.incoming));
      if n <= |a| then
        r == Got(a[..n]) && Available(sock.incoming) == a[n..] && Stop(sock.incoming) == old(Stop(sock.incoming))
      else
        r == old(CutOff(sock.incoming))
  {
    left := remaining;
    if remaining != [] {
      if n <= |remaining| {
        return Got(remaining[..n]), remaining[n..];
      }
      return Missing, [];
    }
    if sock != null {
      r := ReadExact(sock, n);
      return;
    }
    return Missing, left;
  }

  /** Undo the masking of a payload in place. */
  method UnmaskInPlace(payload: array<byte>, key: Key)
    modifies payload
    ensures payload[..] == ApplyMask(key, old(payload[..]))
    ensures forall i, k :: 0 <= i < payload.Length && 0 <= k < 8 ==>
      (Bit(payload[i], k) == 1 <==> Bit(old(payload[i]), k) != Bit(key[i % 4], k))
  {
    var i := 0;
    while i < payload.Length
      invariant 0 <= i <= payload.Length
      invariant forall k :: 0 <= k < i ==> payload[k] == Xor(old(payload[k]), key[k % 4])
      invariant forall k :: i <= k < payload.Length ==> payload[k] == old(payload[k])
    {
      payload[i] := Xor(payload[i], key[i % 4]);
      i := i + 1;
    }
    forall i, k | 0 <= i < payload.Length && 0 <= k < 8
      ensures Bit(payload[i], k) == 1 <==> Bit(old(payload[i]), k) != Bit(key[i % 4], k)
    {
      XorIsBitwise(old(payload[i]), key[i % 4], k);
    }
  }

  /** What the frame routines return: bytes, the value that ends the conversation, or an OS error that escapes. */
  datatype Outcome = Payload(data: bytes) | Closed | Escaped

  /** The outcome that a complete, closing or cut-off octet string calls for. */
  function OutcomeOf(p: Parsed, cutOff: ReadResult): Outcome
  {
    match p
    case Complete(f, _) => Payload(Delivered(f))
    case CloseSeen(_) => Closed
    case Incomplete => if cutOff.Raised? then Escaped else Closed
  }

  /** What is still unread after a frame has been taken off the front of `b`. */
  predicate LeavesRest(p: Parsed, unread: bytes)
  {
    match p
    case Complete(_, rest) => unread == rest
    case CloseSeen(rest) => unread == rest
    case Incomplete => true
  }

  /** Read the rest of a frame whose two header octets are known, from the socket or from the buffer `remaining`. */
  method ParseFrame(head: bytes, sock: Socket?, remaining: bytes) returns (out: Outcome)
    requires |head| == 2
    modifies (if sock == null then {} else {sock})`incoming
    ensures sock == null ==> out == OutcomeOf(Parse(head + remaining), Missing)
    ensures sock != null && remaining == [] ==>
      var p := Parse(head + old(Available(sock.incoming)));
      && out == OutcomeOf(p, old(CutOff(sock.incoming)))
      && (!p.Incomplete? ==> LeavesRest(p, Available(sock.incoming)) && Stop(sock.incoming) == old(Stop(sock.incoming)))
  {
    ghost var stream := if sock == null then remaining else Available(sock.incoming);
    HeaderSplit(head, stream);
    if head[0] % 16 == CLOSE {
      return Closed;
    }
    var length: nat := head[1] % 128;
    var left, r := remaining, Missing;

    if length == 126 {
      r, left := ReadFrom(sock, left, 2);
      if !r.Got? || r.data == [] {
        return if r.Raised? then Escaped else Closed;
      }
      length := FromBigEndian(r.data);
    } else if length == 127 {
      r, left := ReadFrom(sock, left, 8);
      if !r.Got? || r.data == [] {
        return if r.Raised? then Escaped else Closed;
      }
      length := FromBigEndian(r.data);
    }

    out := ParseBody(head, sock, left, length);
  }

  /** The second half of the frame reader: masking key and payload, once the length is known. */
  method ParseBody(head: bytes, sock: Socket?, remaining: bytes, length: nat) returns (out: Outcome)
    requires |head| == 2
    modifies (if sock == null then {} else {sock})`incoming
    ensures sock == null ==> out == OutcomeOf(ParseMask(head, FormOf(head[1] % 128), length, remaining), Missing)
    ensures sock != null && remaining == [] ==>
      var p := ParseMask(head, FormOf(head[1] % 128), length, old(Available(sock.incoming)));
      && out == OutcomeOf(p, old(CutOff(sock.incoming)))
      && (!p.Incomplete? ==> LeavesRest(p, Available(sock.incoming)) && Stop(sock.incoming) == old(Stop(sock.incoming)))
  {
    var masked := head[1] >= 128;
    var left, r := remaining, Missing;
    var key: Key := [0, 0, 0, 0];
    if masked {
      r, left := ReadFrom(sock, left, 4);
      if !r.Got? || r.data == [] {
        return if r.Raised? then Escaped else Closed;
      }
      key := r.data;
    }
    r, left := ReadFrom(sock, left, length);
    if r.Raised? {
      return Escaped;
    }
    if r == Missing || r.data == [] {
      return if length > 0 then Closed else Payload([]);
    }
    var payload := r.data;
    if masked {
      var buffer := new byte[|payload|](i requires 0 <= i < |payload| => payload[i]);
      assert buffer[..] == payload;
      UnmaskInPlace(buffer, key);
      payload := buffer[..];
    }
    if head[0] % 16 == PING {
      return Payload([]);
    }
    return Payload(payload);
  }

  lemma HeaderSplit(head: bytes, b: bytes)
    requires |head| == 2
    ensures Parse(head + b) == if head[0] % 16 == CLOSE then CloseSeen(b) else ParseLength(head, b)
  {
    SplitConcat(head, b);
  }

  /** Read one frame from the socket. An OS error while the header is read ends the conversation quietly. */
  method WsRecv(sock: Socket) returns (out: Outcome)
    modifies sock`incoming
    ensures var a := old(Available(sock.incoming));
      var p := Parse(a);
      && out == OutcomeOf(p, if |a| < 2 then Missing else old(CutOff(sock.incoming)))
      && (!p.Incomplete? ==> LeavesRest(p, Available(sock.incoming)) && Stop(sock.incoming) == old(Stop(sock.incoming)))
  {
    ghost var a := Available(sock.incoming);
    var r := ReadExact(sock, 2);
    if !r.Got? {
      return Closed;
    }
    assert a == r.data + a[2..];
    out := ParseFrame(r.data, sock, []);
  }

  /** A frame in front of the stream comes out, and exactly its octets are gone. */
  method ReceiveFrame(sock: Socket, ghost f: Frame, ghost tail: bytes) returns (data: bytes)
    requires Legal(f) && f.opcode != CLOSE && Available(sock.incoming) == Wire(f) + tail
    modifies sock`incoming
    ensures data == Delivered(f) && Available(sock.incoming) == tail
  {
    ParseWire(f, tail);
    var out := WsRecv(sock);
    return out.data;
  }

  /**
   If the stream begins with `fs`, each of them complete and none a close frame, receiving that many frames gives
   exactly their payloads and leaves exactly what follows them, however the stream is cut into pieces.
   */
  method ReceiveFrames(sock: Socket, ghost fs: seq<Frame>, n: nat, ghost rest: bytes) returns (outs: seq<bytes>)
    requires n == |fs| && forall f :: f in fs ==> Legal(f) && f.opcode != CLOSE
    requires Available(sock.incoming) == WireAll(fs) + rest
    modifies sock`incoming
    ensures outs == DeliveredAll(fs) && Available(sock.incoming) == rest
  {
    outs := [];
    ghost var todo := fs;
    assert [] + DeliveredAll(fs) == DeliveredAll(fs);
    for i := 0 to n
      invariant |todo| == n - i && forall f :: f in todo ==> Legal(f) && f.opcode != CLOSE
      invariant Available(sock.incoming) == WireAll(todo) + rest && outs + DeliveredAll(todo) == DeliveredAll(fs)
    {
      Associates(Wire(todo[0]), WireAll(todo[1..]), rest);
      var data := ReceiveFrame(sock, todo[0], WireAll(todo[1..]) + rest);
      Associates(outs, [Delivered(todo[0])], DeliveredAll(todo[1..]));
      outs, todo := outs + [data], todo[1..];
    }
    assert outs + [] == outs && [] + rest == rest;
  }

  lemma {:induction false} DeliveredAllSize(fs: seq<Frame>)
    ensures |DeliveredAll(fs)| == |fs|
    ensures forall i :: 0 <= i < |fs| ==> DeliveredAll(fs)[i] == Delivered(fs[i])
  {
    if fs != [] {
      DeliveredAllSize(fs[1..]);
    }
  }

  /** Decode the frame at the front of a buffer. A buffer too short for a header counts as no data, not as the end. */
  method WsDecodeFrame(data: bytes) returns (out: Outcome)
    ensures out == DecodeOutcome(data)
  {
    if |data| < 2 {
      return Payload([]);
    }
    assert data == data[..2] + data[2..];
    out := ParseFrame(data[..2], null, data[2..]);
  }

  function DecodeOutcome(data: bytes): Outcome
  {
    if |data| < 2 then Payload([]) else OutcomeOf(Parse(data), Missing)
  }

  /** Send one binary frame. A length that does not fit in eight octets cannot be packed, and nothing is sent. */
  method WsSend(sock: Socket, data: bytes) returns (ok: bool)
    modifies sock`sent
    ensures ok <==> |data| < 0x1_0000_0000_0000_0000
    ensures sock.sent == if ok then old(sock.sent) + Wire(ServerFrame(data)) else old(sock.sent)
  {
    Pow256Values();
    var header: bytes := [0x82];
    if |data| < 126 {
      header := header + [|data|];
    } else if |data| < 65536 {
      header := header + [126];
      header := header + BigEndian(|data|, 2);
    } else if |data| < 0x1_0000_0000_0000_0000 {
      header := header + [127];
      header := header + BigEndian(|data|, 8);
    } else {
      return false;
    }
    assert header == Head(ServerFrame(data)) + ExtendedLength(MinimalForm(|data|), |data|);
    assert header + data == Wire(ServerFrame(data));
    sock.SendAll(header + data);
    return true;
  }

  /** The octets of a pong as the server writes them. */
  function PongOctets(data: bytes): bytes
    requires |data| < 256
  {
    [0x8A, |data|] + data
  }

  /** Send a pong. A length that is no octet cannot be packed, and nothing is sent. */
  method WsSendPong(sock: Socket, data: bytes) returns (ok: bool)
    modifies sock`sent
    ensures ok <==> |data| < 256
    ensures sock.sent == if ok then old(sock.sent) + PongOctets(data) else old(sock.sent)
  {
    if |data| >= 256 {
      return false;
    }
    var header: bytes := [0x8A, |data|];
    sock.SendAll(header + data);
    return true;
  }

  // ---------- theorems ----------

  /** What the server sends decodes to what it was given, whatever follows it, on either path. */
  lemma SendDecodes(data: bytes, rest: bytes)
    requires |data| < 0x1_0000_0000_0000_0000
    ensures Parse(Wire(ServerFrame(data)) + rest) == Complete(ServerFrame(data), rest)
    ensures DecodeOutcome(Wire(ServerFrame(data)) + rest) == Payload(data)
  {
    ParseWire(ServerFrame(data), rest);
    assert |Wire(ServerFrame(data)) + rest| >= 2;
  }

  /**
   The buffer and the socket give the same answer for the same octets just when there is a header to read and
   the stream does not fail inside the frame: a lone octet is "no data" to one and the end to the other, and an
   OS error can only come from a socket.
   */
  lemma PathsAgree(data: bytes, cutOff: ReadResult)
    ensures DecodeOutcome(data) == OutcomeOf(Parse(data), if |data| < 2 then Missing else cutOff)
      <==> |data| >= 2 && (Parse(data).Incomplete? ==> !cutOff.Raised?)
  {
    assert |data| < 2 ==> Parse(data).Incomplete?;
  }

  /**
   The conversation ends at a close frame and where the stream does; an OS error escapes only if it struck before the
   frame was complete.
   */
  lemma EndsExactly(data: bytes, pieces: seq<Recv>)
    ensures OutcomeOf(Parse(data), CutOff(pieces)) == Escaped <==> Parse(data).Incomplete? && Stop(pieces).Failed?
    ensures OutcomeOf(Parse(data), CutOff(pieces)) == Closed <==>
      (|data| >= 2 && data[0] % 16 == 8) || (Parse(data).Incomplete? && !Stop(pieces).Failed?)
    ensures DecodeOutcome(data) != Escaped
  {
    if |data| >= 2 {
      OpcodesMean(data);
    }
  }

  /** A pong of at most 255 bytes reads back as its own payload just when it has fewer than 126 bytes. */
  lemma PongReadsBack(data: bytes)
    requires |data| < 256
    ensures DecodeOutcome(PongOctets(data)) == Payload(data) <==> |data| < 126
  {
    var b := PongOctets(data);
    assert b[..2] == [0x8A, |data|] && b[2..] == data;
    if |data| < 126 {
      assert b[0] % 16 == 10 && 0x8A / 16 == 8;
      var f := Frame(8, 10, Unmasked, Short, data);
      assert Wire(f) + [] == b;
      ParseWire(f, []);
    } else if Parse(b).Complete? {
      LengthsAddUp(b);
      assert |Parse(b).frame.payload| < |data|;
    }
  }

  /** One keystroke from a browser: a masked binary frame with a single octet. */
  lemma KeystrokeReads(c: byte)
    ensures DecodeOutcome([0x82, 0x81, 1, 1, 1, 1, c]) == Payload([if c % 2 == 0 then c + 1 else c - 1])
  {
    var key, x := [1, 1, 1, 1], Xor(c, 1);
    var f := Frame(8, 2, Masked(key), Short, [x]);
    XorWithOne(c);
    XorWithOne(x);
    assert ApplyMask(key, [x]) == [c];
    assert Head(f) == [0x82, 0x81];
    assert Wire(f) + [] == [0x82, 0x81, 1, 1, 1, 1, c];
    ParseWire(f, []);
  }

  /** A payload that takes up everything behind the header is announced by the short form. */
  lemma LengthsAddUp(b: bytes)
    requires Parse(b).Complete?
    ensures var f := Parse(b).frame; |f.payload| < 126 || |f.payload| < |b| - 2
  {
    ParsedIsWire(b);
    match Parse(b)
    case Complete(f, rest) =>
      assert |Wire(f)| == 2 + ExtendedWidth(f.form) + |MaskKey(f.mask)| + |f.payload|;
  }
}
