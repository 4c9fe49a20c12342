/**
 The loop that carries bytes between a browser's websocket and a terminal: input is translated and,
 for an iDRAC, held back until the controller has shown its prompt.

 What the operating system does is given tick by tick: whether the session still exists, what the terminal
 printed, whether a write was taken. A write is taken whole or fails.
 */
module TerminalBridge {
  import opened Bytes
  import opened Common
  import opened WebSocket
  import opened WebSocketIO

  datatype PtyEvent = Quiet | Output(data: bytes) | PtyError

  /** One turn of the loop as the outside world decides it. */
  datatype Tick = Tick(
    alive: bool,       // the session is still in the session store
    selectOk: bool,    // waiting for input did not fail
    pty: PtyEvent,     // what the terminal had to say
    sendOk: bool,      // sending that to the browser did not fail
    flushOk: bool,     // writing held-back input succeeded
    sockReady: bool,   // the browser has sent something
    writeOk: bool)     // writing fresh input succeeded

  const LF: byte := 10
  const CR: byte := 13

  /** Line feeds become carriage returns for an iDRAC; other terminals get the bytes as they are. */
  function Translate(idrac: bool, payload: bytes): (t: bytes)
    ensures |t| == |payload|
    ensures forall i :: 0 <= i < |t| ==> t[i] == if idrac && payload[i] == 10 then 13 else payload[i]
  {
    if idrac then seq(|payload|, i requires 0 <= i < |payload| => if payload[i] == LF then CR else payload[i])
    else payload
  }

  function LowerOctets(text: bytes): (t: bytes)
    ensures |t| == |text|
  {
    seq(|text|, i requires 0 <= i < |text| => if 65 <= text[i] <= 90 then text[i] + 32 else text[i])
  }

  /** The prompt: an arrow "->" or, in any case, "/admin". */
  predicate ShowsPrompt(data: bytes)
  {
    Contains(data, [45, 62]) || Contains(LowerOctets(data), [47, 97, 100, 109, 105, 110])
  }

  /** The octets of a text in ASCII. */
  function Octets(text: string): (b: bytes)
    requires forall i :: 0 <= i < |text| ==> text[i] as int < 128
    ensures |b| == |text|
    ensures forall i :: 0 <= i < |text| ==> b[i] == text[i] as int
  {
    seq(|text|, i requires 0 <= i < |text| => text[i] as int)
  }

  predicate IsAscii(text: string)
  {
    forall i :: 0 <= i < |text| ==> text[i] as int < 128
  }

  lemma OctetsStandAt(text: string, word: string, i: nat)
    requires IsAscii(text) && IsAscii(word) && i + |word| <= |text|
    ensures StandsAt(Octets(text), Octets(word), i) <==> StandsAt(text, word, i)
  {
    var part, octets := text[i..i + |word|], Octets(text)[i..i + |word|];
    assert octets == Octets(part);
    if octets == Octets(word) {
      forall k | 0 <= k < |word|
        ensures part[k] == word[k]
      {
        assert Octets(word)[k] == Octets(part)[k];
      }
    }
  }

  lemma OctetsContain(text: string, word: string)
    requires IsAscii(text) && IsAscii(word)
    ensures Contains(Octets(text), Octets(word)) <==> Contains(text, word)
  {
    forall i | 0 <= i <= |text| - |word|
      ensures StandsAt(Octets(text), Octets(word), i) <==> StandsAt(text, word, i)
    {
      OctetsStandAt(text, word, i);
    }
  }

  lemma LowerOctetsAreLower(text: string)
    requires IsAscii(text)
    ensures IsAscii(Lower(text)) && LowerOctets(Octets(text)) == Octets(Lower(text))
  {
  }

  /** What a terminal prints shows the prompt exactly if it has an arrow in it or, in any case, "/admin". */
  lemma PromptIsText(text: string)
    requires IsAscii(text)
    ensures ShowsPrompt(Octets(text)) <==> Contains(text, "->") || Contains(Lower(text), "/admin")
  {
    LowerOctetsAreLower(text);
    OctetsContain(text, "->");
    OctetsContain(Lower(text), "/admin");
    assert Octets("->") == [45, 62] && Octets("/admin") == [47, 97, 100, 109, 105, 110];
  }

  /** All payloads, translated, one after the other. */
  function Flow(idrac: bool, payloads: seq<bytes>): bytes
  {
    if payloads == [] then []
    else Flow(idrac, payloads[..|payloads| - 1]) + Translate(idrac, payloads[|payloads| - 1])
  }

  /** Empty payloads are not handed on. */
  function NonEmpty(payloads: seq<bytes>): seq<bytes>
  {
    if payloads == [] then []
    else
      var last := payloads[|payloads| - 1];
      NonEmpty(payloads[..|payloads| - 1]) + if last == [] then [] else [last]
  }

  lemma NonEmptySnoc(payloads: seq<bytes>, last: bytes)
    ensures NonEmpty(payloads + [last]) == NonEmpty(payloads) + if last == [] then [] else [last]
  {
    assert (payloads + [last])[..|payloads|] == payloads;
  }

  lemma NonEmptyOne(payload: bytes)
    ensures NonEmpty([payload]) == if payload == [] then [] else [payload]
  {
    NonEmptySnoc([], payload);
    assert [] + [payload] == [payload];
  }

  lemma FlowSnoc(idrac: bool, payloads: seq<bytes>, last: bytes)
    ensures Flow(idrac, payloads + [last]) == Flow(idrac, payloads) + Translate(idrac, last)
  {
    assert (payloads + [last])[..|payloads|] == payloads;
  }

  class Bridge {
    const sock: Socket
    const idrac: bool
    var ready: bool
    var pending: bytes
    var written: bytes            // what the terminal has been given to read
    ghost var given: seq<bytes>   // every payload passed to WriteToPty, in order

    constructor (sock: Socket, idrac: bool)
      ensures this.sock == sock && this.idrac == idrac
      ensures Flowing() && given == []
    {
      this.sock, this.idrac := sock, idrac;
      ready, pending, written, given := !idrac, [], [], [];
    }

    /** First in, first out: written followed by held back is everything given, and nothing is held back once ready. */
    ghost predicate Flowing()
      reads this
    {
      && written + pending == Flow(idrac, given)
      && (ready ==> pending == [])
      && (!idrac ==> ready)
    }

    /** After the end: as before, but input may be stuck in front of a failed flush, or the last payload refused. */
    ghost predicate Ended()
      reads this
    {
      || written + pending == Flow(idrac, given)
      || (given != [] && ready && pending == [] && written == Flow(idrac, given[..|given| - 1]))
    }

    method WriteToPty(payload: bytes, writeOk: bool) returns (ok: bool)
      requires Flowing()
      modifies this
      ensures given == old(given) + [payload] && ready == old(ready)
      ensures ok <==> writeOk || !ready
      ensures !ready ==> written == old(written) && pending == old(pending) + Translate(idrac, payload)
      ensures ready ==> pending == [] && written == old(written) + if ok then Translate(idrac, payload) else []
      ensures if ok then Flowing() else Ended()
    {
      FlowSnoc(idrac, given, payload);
      assert (given + [payload])[..|given|] == given;
      given := given + [payload];
      var bytesOut := Translate(idrac, payload);
      if idrac && !ready {
        pending := pending + bytesOut;
        return true;
      }
      if writeOk {
        written := written + bytesOut;
      }
      return writeOk;
    }

    /** The terminal printed something: pass it on, and release held-back input at the first prompt. */
    method PtyReadable(event: PtyEvent, sendOk: bool, flushOk: bool) returns (go: bool)
      requires Flowing() && event != Quiet
      modifies this, sock`sent
      ensures given == old(given) && written + pending == old(written + pending)
      ensures ready <==> old(ready) || (event.Output? && event.data != [] && sendOk
                                        && |event.data| < 0x1_0000_0000_0000_0000 && ShowsPrompt(event.data))
      ensures go <==> event.Output? && event.data != [] && sendOk && |event.data| < 0x1_0000_0000_0000_0000
                      && (ready && old(pending) != [] ==> flushOk)
      ensures if go then Flowing() else Ended()
      ensures written == if go && old(ready) != ready then old(written + pending) else old(written)
      ensures go ==> sock.sent == old(sock.sent) + Wire(ServerFrame(event.data))
    {
      if !event.Output? || event.data == [] || !sendOk {
        return false;
      }
      var fits := WsSend(sock, event.data);
      if !fits {
        return false;
      }
      if idrac && !ready && ShowsPrompt(event.data) {
        ready := true;
        if pending != [] {
          if !flushOk {
            return false;
          }
          written := written + pending;
          pending := [];
        }
      }
      return true;
    }

    /** The browser sent something: take one frame off the stream and pass its payload to the terminal. */
    method SockReadable(writeOk: bool) returns (go: bool, ghost read: Parsed)
      requires Flowing()
      modifies this, sock`incoming
      ensures read == Parse(old(Available(sock.incoming)))
      ensures read.Complete? ==>
        && Available(sock.incoming) == read.rest
        && given == old(given) + NonEmpty([Delivered(read.frame)])
      ensures !read.Complete? ==> given == old(given) && !go
      ensures ready == old(ready) && old(given) <= given && old(written) <= written
      ensures if go then Flowing() else Ended()
    {
      read := Parse(Available(sock.incoming));
      var out := WsRecv(sock);
      if !out.Payload? {
        return false, read;
      }
      NonEmptyOne(out.data);
      go := true;
      if out.data != [] {
        go := WriteToPty(out.data, writeOk);
      }
    }

    /** The bytes that the HTTP layer had already read: the frame at their front, if any, and nothing behind it. */
    method TakeLeftover(leftover: bytes, writeOk: bool) returns (go: bool, ghost lead: seq<bytes>)
      requires Flowing() && given == [] && leftover != []
      modifies this
      ensures lead == LeadOf(leftover)
      ensures given == NonEmpty(lead) && ready == old(ready) && old(written) <= written
      ensures lead == [] ==> !go
      ensures if go then Flowing() else Ended()
    {
      var out := WsDecodeFrame(leftover);
      if !out.Payload? {
        return false, [];
      }
      lead := [out.data];
      NonEmptyOne(out.data);
      go := true;
      if out.data != [] {
        go := WriteToPty(out.data, writeOk);
      }
    }

    /**
     One turn of the loop once the leftover is dealt with. The terminal's output is handled before the browser's
     input.
     */
    method Turn(t: Tick, ghost stream: bytes, ghost lead: seq<bytes>, ghost frames: seq<Frame>)
      returns (go: bool, ghost frames': seq<Frame>)
      requires Flowing() && Taken(stream, frames, Available(sock.incoming)) && given == Heard(lead, frames)
      modifies this, sock
      ensures if go then Flowing() else Ended()
      ensures go ==> Taken(stream, frames', Available(sock.incoming))
      ensures TakenPrefix(stream, frames') && given == Heard(lead, frames')
      ensures (old(ready) ==> ready) && old(given) <= given && old(written) <= written
    {
      frames' := frames;
      if !t.selectOk {
        return false, frames';
      }
      if t.pty != Quiet {
        go := PtyReadable(t.pty, t.sendOk, t.flushOk);
        if !go {
          return false, frames';
        }
      }
      if t.sockReady {
        ghost var tail := Available(sock.incoming);
        ghost var read;
        go, read := SockReadable(t.writeOk);
        if read.Complete? {
          frames' := frames + [read.frame];
          TakenSnoc(stream, frames, tail);
          HeardSnoc(lead, frames, read.frame);
        }
        return go, frames';
      }
      return true, frames';
    }

    /** The bridge as it stands, for the record. */
    ghost function Now(): Snapshot
      reads this
    {
      Snapshot(ready, pending, written, given)
    }

    /**
     How far the loop has come: the leftover is still unread, or it has been taken and the frames come off the socket.
     */
    ghost predicate Progress(leftover: bytes, unread: bytes, stream: bytes, lead: seq<bytes>, frames: seq<Frame>)
      reads this, sock
    {
      && Flowing() && Taken(stream, frames, Available(sock.incoming)) && given == Heard(lead, frames)
      && (unread != [] ==> unread == leftover && lead == [] && frames == [])
      && (unread == [] ==> lead == LeadOf(leftover))
    }

    /** What is known when the loop has ended. */
    ghost predicate Finished(leftover: bytes, stream: bytes, lead: seq<bytes>, frames: seq<Frame>)
      reads this, sock
    {
      && Ended() && TakenPrefix(stream, frames) && given == Heard(lead, frames)
      && (lead == LeadOf(leftover) || (lead == [] && frames == []))
    }

    /** One turn, whichever it is. */
    method OneTurn(t: Tick, leftover: bytes, unread: bytes,
                   ghost stream: bytes, ghost lead: seq<bytes>, ghost frames: seq<Frame>)
      returns (go: bool, ghost lead': seq<bytes>, ghost frames': seq<Frame>)
      requires Progress(leftover, unread, stream, lead, frames)
      modifies this, sock
      ensures go ==> Progress(leftover, [], stream, lead', frames') && Follows(old(Now()), Now())
      ensures go ==> InFlow(idrac, Now())
      ensures !go ==> Finished(leftover, stream, lead', frames')
    {
      lead', frames' := lead, frames;
      if !t.alive {
        return false, lead, frames;
      }
      if unread != [] {
        HeardNothing();
        go, lead' := TakeLeftover(unread, t.writeOk);
        HeardOnly(lead');
      } else {
        go, frames' := Turn(t, stream, lead, frames);
      }
    }

    /** The record after `n` turns: it goes from `first` to how the bridge stands now. */
    ghost predicate OnRecord(trace: seq<Snapshot>, first: Snapshot, n: nat)
      reads this
    {
      Orderly(idrac, trace) && |trace| == n + 1 && trace[0] == first && trace[n] == Now()
    }

    /** One turn, with what it leaves put on record. */
    method TracedTurn(t: Tick, leftover: bytes, unread: bytes, ghost stream: bytes, ghost lead: seq<bytes>,
                      ghost frames: seq<Frame>, ghost trace: seq<Snapshot>, ghost first: Snapshot, ghost n: nat)
      returns (go: bool, ghost lead': seq<bytes>, ghost frames': seq<Frame>, ghost trace': seq<Snapshot>)
      requires Progress(leftover, unread, stream, lead, frames) && OnRecord(trace, first, n)
      modifies this, sock
      ensures go ==> Progress(leftover, [], stream, lead', frames') && OnRecord(trace', first, n + 1)
      ensures !go ==> Finished(leftover, stream, lead', frames') && trace' == trace
    {
      go, lead', frames' := OneTurn(t, leftover, unread, stream, lead, frames);
      trace' := trace;
      if go {
        OrderlySnoc(idrac, trace, Now());
        trace' := trace + [Now()];
      }
    }

    /**
     The loop, for as long as the ticks last. `lead` is the payload found in `leftover`, once that has been looked
     at; `frames` are the frames taken off the socket; `trace` is how the bridge stood before each turn, and, while the
     loop goes on, at the end.
     */
    method Run(leftover: bytes, ticks: seq<Tick>)
      returns (running: bool, ghost lead: seq<bytes>, ghost frames: seq<Frame>, ghost trace: seq<Snapshot>)
      requires Flowing() && given == []
      modifies this, sock
      ensures running && ticks != [] ==> Progress(leftover, [], old(Available(sock.incoming)), lead, frames)
      ensures !running ==> Finished(leftover, old(Available(sock.incoming)), lead, frames)
      ensures trace != [] && trace[0] == old(Now()) && Orderly(idrac, trace)
      ensures running ==> |trace| == |ticks| + 1 && trace[|ticks|] == Now()
    {
      ghost var stream, first := Available(sock.incoming), Now();
      var unread := leftover;
      lead, frames, trace := [], [], [first];
      StartsInProgress(leftover);
      for i := 0 to |ticks|
        invariant Progress(leftover, unread, stream, lead, frames) && (i > 0 ==> unread == [])
        invariant OnRecord(trace, first, i)
      {
        running, lead, frames, trace := TracedTurn(ticks[i], leftover, unread, stream, lead, frames, trace, first, i);
        if !running {
          return;
        }
        unread := [];
      }
      running := true;
    }

    lemma StartsInProgress(leftover: bytes)
      requires Flowing() && given == []
      ensures Progress(leftover, leftover, Available(sock.incoming), [], [])
    {
      HeardNothing();
      assert WireAll([]) + Available(sock.incoming) == Available(sock.incoming);
    }
  }

  lemma HeardNothing()
    ensures Heard([], []) == []
  {
  }

  lemma HeardOnly(lead: seq<bytes>)
    ensures Heard(lead, []) == NonEmpty(lead)
  {
    assert lead + [] == lead;
  }

  /** How a bridge stands at one moment. */
  datatype Snapshot = Snapshot(ready: bool, pending: bytes, written: bytes, given: seq<bytes>)

  /** First in, first out; and nothing is held back once the prompt has been seen. */
  predicate InFlow(idrac: bool, s: Snapshot)
  {
    s.written + s.pending == Flow(idrac, s.given) && (s.ready ==> s.pending == [])
  }

  /** Readiness is not taken back, nothing written is taken back, and what was given stays given. */
  predicate Follows(s: Snapshot, s': Snapshot)
  {
    (s.ready ==> s'.ready) && s.written <= s'.written && s.given <= s'.given
  }

  ghost predicate Orderly(idrac: bool, trace: seq<Snapshot>)
  {
    && (forall i :: 0 <= i < |trace| ==> InFlow(idrac, trace[i]))
    && (forall i, j :: 0 <= i < j < |trace| ==> Follows(trace[i], trace[j]))
  }

  lemma OrderlySnoc(idrac: bool, trace: seq<Snapshot>, s: Snapshot)
    requires Orderly(idrac, trace) && InFlow(idrac, s) && trace != [] && Follows(trace[|trace| - 1], s)
    ensures Orderly(idrac, trace + [s])
  {
    forall i | 0 <= i < |trace|
      ensures Follows(trace[i], s)
    {
      assert i < |trace| - 1 ==> Follows(trace[i], trace[|trace| - 1]);
    }
  }

  /** What the loop hands to the terminal first when there is a leftover. */
  function LeadOf(leftover: bytes): seq<bytes>
  {
    if leftover == [] then []
    else
      match DecodeOutcome(leftover)
      case Payload(data) => [data]
      case _ => []
  }

  ghost predicate Readable(fs: seq<Frame>)
  {
    forall f :: f in fs ==> Legal(f) && f.opcode != CLOSE
  }

  /** `stream` is exactly the frames `fs` followed by `tail`. */
  ghost predicate Taken(stream: bytes, fs: seq<Frame>, tail: bytes)
  {
    Readable(fs) && stream == WireAll(fs) + tail
  }

  ghost predicate TakenPrefix(stream: bytes, fs: seq<Frame>)
  {
    Readable(fs) && WireAll(fs) <= stream
  }

  /** The payloads that go to the terminal for `lead` and the frames `fs`. */
  ghost function Heard(lead: seq<bytes>, fs: seq<Frame>): seq<bytes>
  {
    NonEmpty(lead + DeliveredAll(fs))
  }

  lemma TakenSnoc(stream: bytes, fs: seq<Frame>, tail: bytes)
    requires Taken(stream, fs, tail) && Parse(tail).Complete?
    ensures Taken(stream, fs + [Parse(tail).frame], Parse(tail).rest)
  {
    ParsedIsWire(tail);
    WireAllSnoc(fs, Parse(tail).frame);
    Associates(WireAll(fs), Wire(Parse(tail).frame), Parse(tail).rest);
  }

  lemma HeardSnoc(lead: seq<bytes>, fs: seq<Frame>, f: Frame)
    ensures Heard(lead, fs + [f]) == Heard(lead, fs) + NonEmpty([Delivered(f)])
  {
    DeliveredAllSnoc(fs, f);
    assert lead + (DeliveredAll(fs) + [Delivered(f)]) == lead + DeliveredAll(fs) + [Delivered(f)];
    NonEmptySnoc(lead + DeliveredAll(fs), Delivered(f));
    NonEmptySnoc([], Delivered(f));
    assert [] + [Delivered(f)] == [Delivered(f)];
  }

  // ---------- theorems ----------

  /** Framing is unambiguous: two ways to cut the same stream into frames agree as far as both go. */
  lemma {:induction false} FramingUnique(fs: seq<Frame>, gs: seq<Frame>, fTail: bytes, gTail: bytes)
    requires Readable(fs) && Readable(gs) && |fs| <= |gs|
    requires WireAll(fs) + fTail == WireAll(gs) + gTail
    ensures fs == gs[..|fs|]
    decreases |fs|
  {
    if fs != [] {
      Associates(Wire(fs[0]), WireAll(fs[1..]), fTail);
      Associates(Wire(gs[0]), WireAll(gs[1..]), gTail);
      ParseWire(fs[0], WireAll(fs[1..]) + fTail);
      ParseWire(gs[0], WireAll(gs[1..]) + gTail);
      FramingUnique(fs[1..], gs[1..], fTail, gTail);
    }
  }

  // ---------- end to end, with what the HTTP layer has read ahead ----------

  lemma LeadOfFrame(f: Frame, more: bytes)
    requires Legal(f) && f.opcode != CLOSE
    ensures LeadOf(Wire(f) + more) == [Delivered(f)]
  {
    ParseWire(f, more);
    assert |Wire(f) + more| >= 2;
  }

  lemma {:induction false} NonEmptyNone(payloads: seq<bytes>)
    ensures NonEmpty(payloads) == [] <==> forall i :: 0 <= i < |payloads| ==> payloads[i] == []
    decreases |payloads|
  {
    if payloads != [] {
      NonEmptyNone(payloads[..|payloads| - 1]);
    }
  }

  lemma {:induction false} NonEmptyConcat(a: seq<bytes>, b: seq<bytes>)
    ensures NonEmpty(a + b) == NonEmpty(a) + NonEmpty(b)
    decreases |b|
  {
    if b == [] {
      assert a + b == a;
    } else {
      var init, last := b[..|b| - 1], b[|b| - 1];
      NonEmptyConcat(a, init);
      NonEmptySnoc(a + init, last);
      assert a + b == a + init + [last];
      Associates(NonEmpty(a), NonEmpty(init), if last == [] then [] else [last]);
    }
  }

  lemma FirstIsAll(first: bytes, others: seq<bytes>)
    ensures NonEmpty([first]) == NonEmpty([first] + others) <==> forall i :: 0 <= i < |others| ==> others[i] == []
  {
    NonEmptyConcat([first], others);
    NonEmptyNone(others);
    assert NonEmpty([first]) + [] == NonEmpty([first]);
  }

  lemma OthersAreLost(fs: seq<Frame>, lead: seq<bytes>)
    requires fs != [] && lead == [Delivered(fs[0])]
    ensures NonEmpty(lead) == NonEmpty(DeliveredAll(fs)) <==> forall i :: 1 <= i < |fs| ==> Delivered(fs[i]) == []
  {
    var others := DeliveredAll(fs[1..]);
    DeliveredAllSize(fs[1..]);
    assert (forall i :: 0 <= i < |others| ==> others[i] == [])
      <==> forall i :: 1 <= i < |fs| ==> Delivered(fs[i]) == [] by {
      assert forall i :: 1 <= i < |fs| ==> others[i - 1] == Delivered(fs[i]);
      assert forall i :: 0 <= i < |others| ==> others[i] == Delivered(fs[i + 1]);
    }
    FirstIsAll(Delivered(fs[0]), others);
  }

  /**
   Of the frames read ahead only the first is looked at: what reaches the terminal is what they hold exactly if none
   of the others has anything to deliver.
   */
  lemma LeftoverLosesTheRest(fs: seq<Frame>, rest: bytes)
    requires Readable(fs) && fs != []
    ensures LeadOf(WireAll(fs) + rest) == [Delivered(fs[0])]
    ensures NonEmpty(LeadOf(WireAll(fs) + rest)) == NonEmpty(DeliveredAll(fs))
      <==> forall i :: 1 <= i < |fs| ==> Delivered(fs[i]) == []
  {
    OthersAreLost(fs, [Delivered(fs[0])]);
    Associates(Wire(fs[0]), WireAll(fs[1..]), rest);
    LeadOfFrame(fs[0], WireAll(fs[1..]) + rest);
  }

  lemma {:induction false} AllConcat(fs: seq<Frame>, gs: seq<Frame>)
    requires Readable(fs) && Readable(gs)
    ensures Readable(fs + gs) && WireAll(fs + gs) == WireAll(fs) + WireAll(gs)
    ensures DeliveredAll(fs + gs) == DeliveredAll(fs) + DeliveredAll(gs)
    decreases |fs|
  {
    if fs == [] {
      assert fs + gs == gs;
    } else {
      assert (fs + gs)[1..] == fs[1..] + gs;
      AllConcat(fs[1..], gs);
      Associates(Wire(fs[0]), WireAll(fs[1..]), WireAll(gs));
      Associates([Delivered(fs[0])], DeliveredAll(fs[1..]), DeliveredAll(gs));
    }
  }

  /** If some whole frames have been read ahead, the socket goes on with the next one. */
  lemma SocketGoesOn(ahead: seq<Frame>, others: seq<Frame>, stream: bytes, rest: bytes)
    requires Readable(ahead) && Readable(others) && WireAll(ahead) + stream == WireAll(ahead + others) + rest
    ensures stream == WireAll(others) + rest
  {
    AllConcat(ahead, others);
    Associates(WireAll(ahead), WireAll(others), rest);
    SplitConcat(WireAll(ahead), stream);
    SplitConcat(WireAll(ahead), WireAll(others) + rest);
  }

  lemma Parted(sent: seq<Frame>, m: nat)
    requires Readable(sent) && m <= |sent|
    ensures sent[..m] + sent[m..] == sent && Readable(sent[..m]) && Readable(sent[m..])
  {
  }

  lemma FramesAreSent(sent: seq<Frame>, m: nat, stream: bytes, rest: bytes, frames: seq<Frame>, tail: bytes)
    requires Readable(sent) && m + |frames| <= |sent| && WireAll(sent[..m]) + stream == WireAll(sent) + rest
    requires Taken(stream, frames, tail)
    ensures sent[..m + |frames|] == sent[..m] + frames
  {
    Parted(sent, m);
    SocketGoesOn(sent[..m], sent[m..], stream, rest);
    FramingUnique(frames, sent[m..], tail, rest);
    TakeMore(sent, m, |frames|);
  }

  lemma TakeMore<T>(s: seq<T>, m: nat, n: nat)
    requires m + n <= |s|
    ensures s[..m + n] == s[..m] + s[m..][..n]
  {
  }

  lemma CancelBehind<T>(a: seq<T>, b: seq<T>, c: seq<T>)
    ensures a + c == b + c <==> a == b
  {
    if a + c == b + c {
      assert |a| == |b|;
      SplitConcat(a, c);
      SplitConcat(b, c);
    }
  }

  /** What was heard is what was sent, if the first frame read ahead held all there was. */
  lemma HeardIsSentExactly(lead: seq<bytes>, ahead: seq<Frame>, frames: seq<Frame>)
    requires Readable(ahead) && Readable(frames)
    ensures Heard(lead, frames) == NonEmpty(DeliveredAll(ahead + frames)) <==>
      NonEmpty(lead) == NonEmpty(DeliveredAll(ahead))
  {
    AllConcat(ahead, frames);
    NonEmptyConcat(lead, DeliveredAll(frames));
    NonEmptyConcat(DeliveredAll(ahead), DeliveredAll(frames));
    CancelBehind(NonEmpty(lead), NonEmpty(DeliveredAll(ahead)), NonEmpty(DeliveredAll(frames)));
  }

  lemma LeadIsAllExactly(ahead: seq<Frame>)
    requires Readable(ahead)
    ensures NonEmpty(LeadOf(WireAll(ahead))) == NonEmpty(DeliveredAll(ahead))
      <==> forall i :: 1 <= i < |ahead| ==> Delivered(ahead[i]) == []
  {
    if ahead != [] {
      LeftoverLosesTheRest(ahead, []);
      assert WireAll(ahead) + [] == WireAll(ahead);
    }
  }

  /**
   End to end: if the browser sent the frames `sent`, of which the HTTP layer had read ahead the first `m`, then a
   running bridge has been given the payloads of the frames sent so far, in order, just when none of those read ahead
   but the first had anything to deliver; and what it was given is what it has written, followed by what it holds back.
   */
  lemma BridgeDelivers(
    b: Bridge, leftover: bytes, stream: bytes, lead: seq<bytes>, frames: seq<Frame>, tail: bytes,
    sent: seq<Frame>, rest: bytes, m: nat)
    requires Readable(sent) && m + |frames| <= |sent|
    requires leftover == WireAll(sent[..m]) && leftover + stream == WireAll(sent) + rest
    requires b.Flowing() && b.given == Heard(lead, frames) && Taken(stream, frames, tail) && lead == LeadOf(leftover)
    ensures b.given == NonEmpty(DeliveredAll(sent[..m + |frames|]))
      <==> forall i :: 1 <= i < m ==> Delivered(sent[i]) == []
    ensures b.written + b.pending == Flow(b.idrac, b.given)
  {
    Parted(sent, m);
    FramesAreSent(sent, m, stream, rest, frames, tail);
    HeardIsSentExactly(lead, sent[..m], frames);
    LeadIsAllExactly(sent[..m]);
  }

  lemma WireOfTwo(f: Frame, g: Frame)
    requires Legal(f) && Legal(g)
    ensures WireAll([f, g]) == Wire(f) + Wire(g)
  {
    WireAllSnoc([], f);
    WireAllSnoc([f], g);
    assert [] + [f] == [f] && [f] + [g] == [f, g];
    assert [] + Wire(f) == Wire(f);
  }

  lemma WireOfShort(payload: bytes)
    requires |payload| < 126
    ensures var g := Frame(8, 2, Unmasked, Short, payload); Wire(g) == Head(g) + payload
  {
    var g := Frame(8, 2, Unmasked, Short, payload);
    assert Head(g) + [] + [] == Head(g);
  }

  lemma LooksLikeClose(x: byte)
    ensures Parse([0x88, x]) == CloseSeen([])
  {
    assert [0x88, x][2..] == [];
  }

  /**
   When the HTTP layer has read ahead into the middle of a frame, the rest of that frame is taken for the start of
   one: here the second frame's payload looks like a close frame, and the conversation ends with it undelivered.
   */
  lemma CutLeftoverMisleads(f: Frame, x: byte)
    requires Legal(f) && f.opcode != CLOSE
    ensures var g := Frame(8, 2, Unmasked, Short, [0x88, x]);
      && Legal(g) && Wire(f) + Head(g) + [0x88, x] == WireAll([f, g])
      && LeadOf(Wire(f) + Head(g)) == [Delivered(f)] && Parse([0x88, x]) == CloseSeen([])
  {
    var g, payload := Frame(8, 2, Unmasked, Short, [0x88, x]), [0x88, x];
    WireOfTwo(f, g);
    WireOfShort(payload);
    Associates(Wire(f), Head(g), payload);
    LooksLikeClose(x);
    LeadOfFrame(f, Head(g));
  }
}
