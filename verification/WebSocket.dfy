/**
 WebSocket frames (section 5.2 of RFC 6455) as values, the octets that stand for a frame,
 and a reader of one frame from the front of an octet string. The theorems say that reader
 and wire form are inverse to each other, for every frame and every octet string.
 */
module WebSocket {
  import opened Bytes
  import opened Common

  type Key = k: bytes | |k| == 4 witness [0, 0, 0, 0]

  datatype Mask = Unmasked | Masked(key: Key)

  /** The three ways to write a payload length. */
  datatype LengthForm = Short | Medium | Long

  type nibble = x: int | 0 <= x < 16

  const CLOSE: nibble := 8
  const PING: nibble := 9

  /** `flags` are FIN and the three reserved bits; `payload` is the data before masking. */
  datatype Frame = Frame(flags: nibble, opcode: nibble, mask: Mask, form: LengthForm, payload: bytes)

  // ---------- wire form ----------

  predicate Fits(form: LengthForm, n: nat)
  {
    match form
    case Short => n < 126
    case Medium => n < 0x1_0000
    case Long => n < 0x1_0000_0000_0000_0000
  }

  predicate Legal(f: Frame)
  {
    Fits(f.form, |f.payload|)
  }

  /** The seven-bit length field. */
  function LengthCode(form: LengthForm, n: nat): int
  {
    match form
    case Short => n
    case Medium => 126
    case Long => 127
  }

  /** How many octets of extended length follow the two header octets. */
  function ExtendedWidth(form: LengthForm): nat
  {
    match form
    case Short => 0
    case Medium => 2
    case Long => 8
  }

  function ExtendedLength(form: LengthForm, n: nat): (s: bytes)
    requires Fits(form, n)
    ensures |s| == ExtendedWidth(form)
  {
    Pow256Values();
    match form
    case Short => []
    case Medium => BigEndian(n, 2)
    case Long => BigEndian(n, 8)
  }

  /** Masking, section 5.3: octet `i` is combined with octet `i % 4` of the key. */
  function ApplyMask(key: Key, data: bytes): (s: bytes)
    ensures |s| == |data|
    ensures forall i :: 0 <= i < |data| ==> s[i] == Xor(data[i], key[i % 4])
  {
    seq(|data|, i requires 0 <= i < |data| => Xor(data[i], key[i % 4]))
  }

  function MaskBit(m: Mask): int
  {
    if m.Masked? then 128 else 0
  }

  function MaskKey(m: Mask): bytes
  {
    if m.Masked? then m.key else []
  }

  function MaskedPayload(m: Mask, data: bytes): (s: bytes)
    ensures |s| == |data|
  {
    if m.Masked? then ApplyMask(m.key, data) else data
  }

  function Head(f: Frame): (h: bytes)
    requires Legal(f)
    ensures |h| == 2
  {
    [f.flags * 16 + f.opcode, MaskBit(f.mask) + LengthCode(f.form, |f.payload|)]
  }

  function Wire(f: Frame): bytes
    requires Legal(f)
  {
    Head(f) + ExtendedLength(f.form, |f.payload|) + MaskKey(f.mask) + MaskedPayload(f.mask, f.payload)
  }

  function WireAll(fs: seq<Frame>): bytes
    requires forall f :: f in fs ==> Legal(f)
  {
    if fs == [] then [] else Wire(fs[0]) + WireAll(fs[1..])
  }

  // ---------- reading ----------

  /** What can stand at the front of an octet string. */
  datatype Parsed =
    | Complete(frame: Frame, rest: bytes)
    | CloseSeen(rest: bytes)
    | Incomplete

  function FormOf(code: int): LengthForm
  {
    if code == 126 then Medium else if code == 127 then Long else Short
  }

  /** Read one frame. A close frame is recognised from its two header octets alone. */
  function Parse(b: bytes): Parsed
  {
    if |b| < 2 then Incomplete
    else if b[0] % 16 == CLOSE then CloseSeen(b[2..])
    else ParseLength(b[..2], b[2..])
  }

  function ParseLength(head: bytes, b: bytes): Parsed
    requires |head| == 2
  {
    var code := head[1] % 128;
    var form := FormOf(code);
    var width := ExtendedWidth(form);
    if |b| < width then Incomplete
    else
      var n := if form.Short? then code else FromBigEndian(b[..width]);
      ParseMask(head, form, n, b[width..])
  }

  function ParseMask(head: bytes, form: LengthForm, n: nat, b: bytes): Parsed
    requires |head| == 2
  {
    if head[1] < 128 then ParsePayload(head, form, n, Unmasked, b)
    else if |b| < 4 then Incomplete
    else ParsePayload(head, form, n, Masked(b[..4]), b[4..])
  }

  function ParsePayload(head: bytes, form: LengthForm, n: nat, m: Mask, b: bytes): Parsed
    requires |head| == 2
  {
    if |b| < n then Incomplete
    else Complete(Frame(head[0] / 16, head[0] % 16, m, form, MaskedPayload(m, b[..n])), b[n..])
  }

  // ---------- masking is an involution ----------

  lemma MaskCancels(key: Key, data: bytes)
    ensures ApplyMask(key, ApplyMask(key, data)) == data
  {
    var once := ApplyMask(key, data);
    forall i | 0 <= i < |data|
      ensures ApplyMask(key, once)[i] == data[i]
    {
      XorCancels(data[i], key[i % 4]);
    }
  }

  lemma MaskedPayloadCancels(m: Mask, data: bytes)
    ensures MaskedPayload(m, MaskedPayload(m, data)) == data
  {
    if m.Masked? {
      MaskCancels(m.key, data);
    }
  }

  // ---------- the wire form reads back ----------

  lemma ExtendedLengthReadsBack(form: LengthForm, n: nat)
    requires Fits(form, n)
    ensures !form.Short? ==> FromBigEndian(ExtendedLength(form, n)) == n
  {
    Pow256Values();
    match form
    case Short =>
    case Medium => BigEndianRoundTrip(n, 2);
    case Long => BigEndianRoundTrip(n, 8);
  }

  lemma ParsePayloadWire(f: Frame, rest: bytes)
    requires Legal(f)
    ensures ParsePayload(Head(f), f.form, |f.payload|, f.mask, MaskedPayload(f.mask, f.payload) + rest)
         == Complete(f, rest)
  {
    var body := MaskedPayload(f.mask, f.payload);
    SplitConcat(body, rest);
    MaskedPayloadCancels(f.mask, f.payload);
    HeadFields(f);
  }

  lemma ParseMaskWire(f: Frame, tail: bytes)
    requires Legal(f)
    ensures ParseMask(Head(f), f.form, |f.payload|, MaskKey(f.mask) + tail)
         == ParsePayload(Head(f), f.form, |f.payload|, f.mask, tail)
  {
    HeadFields(f);
    SplitConcat(MaskKey(f.mask), tail);
  }

  lemma ParseLengthWire(f: Frame, tail: bytes)
    requires Legal(f)
    ensures ParseLength(Head(f), ExtendedLength(f.form, |f.payload|) + tail)
         == ParseMask(Head(f), f.form, |f.payload|, tail)
  {
    HeadFields(f);
    SplitConcat(ExtendedLength(f.form, |f.payload|), tail);
    ExtendedLengthReadsBack(f.form, |f.payload|);
  }

  lemma HeadFields(f: Frame)
    requires Legal(f)
    ensures Head(f)[0] / 16 == f.flags && Head(f)[0] % 16 == f.opcode
    ensures Head(f)[1] % 128 == LengthCode(f.form, |f.payload|)
    ensures FormOf(Head(f)[1] % 128) == f.form
    ensures Head(f)[1] < 128 <==> f.mask.Unmasked?
  {
  }

  lemma WireThen(f: Frame, rest: bytes)
    requires Legal(f)
    ensures Wire(f) + rest
         == Head(f) + (ExtendedLength(f.form, |f.payload|)
                       + (MaskKey(f.mask) + (MaskedPayload(f.mask, f.payload) + rest)))
  {
    var head, ext := Head(f), ExtendedLength(f.form, |f.payload|);
    var key, body := MaskKey(f.mask), MaskedPayload(f.mask, f.payload);
    assert head + ext + key + body + rest == head + (ext + (key + (body + rest)));
  }

  /** Every legal frame other than a close frame is read back from its wire form, and nothing more is consumed. */
  lemma ParseWire(f: Frame, rest: bytes)
    requires Legal(f) && f.opcode != CLOSE
    ensures Parse(Wire(f) + rest) == Complete(f, rest)
  {
    WireThen(f, rest);
    HeadFields(f);
    var afterLength := MaskKey(f.mask) + (MaskedPayload(f.mask, f.payload) + rest);
    SplitConcat(Head(f), ExtendedLength(f.form, |f.payload|) + afterLength);
    ParseLengthWire(f, afterLength);
    ParseMaskWire(f, MaskedPayload(f.mask, f.payload) + rest);
    ParsePayloadWire(f, rest);
  }

  lemma ParsedPayloadIsWire(head: bytes, form: LengthForm, n: nat, m: Mask, b: bytes)
    requires |head| == 2 && |b| >= n
    ensures var p := ParsePayload(head, form, n, m, b);
      |p.frame.payload| == n && b == MaskedPayload(m, p.frame.payload) + p.rest
  {
    MaskedPayloadCancels(m, b[..n]);
  }

  lemma ParsedMaskIsWire(head: bytes, form: LengthForm, n: nat, b: bytes)
    requires |head| == 2 && ParseMask(head, form, n, b).Complete?
    ensures var p := ParseMask(head, form, n, b);
      && p.frame.form == form && |p.frame.payload| == n
      && p.frame.flags == head[0] / 16 && p.frame.opcode == head[0] % 16
      && (p.frame.mask.Masked? <==> head[1] >= 128)
      && b == MaskKey(p.frame.mask) + (MaskedPayload(p.frame.mask, p.frame.payload) + p.rest)
  {
    if head[1] < 128 {
      ParsedPayloadIsWire(head, form, n, Unmasked, b);
    } else {
      ParsedPayloadIsWire(head, form, n, Masked(b[..4]), b[4..]);
      assert b == b[..4] + b[4..];
    }
  }

  lemma ReadLengthFits(code: int, ext: bytes)
    requires 0 <= code < 128 && |ext| == ExtendedWidth(FormOf(code))
    ensures var n := if FormOf(code).Short? then code else FromBigEndian(ext);
      && Fits(FormOf(code), n)
      && ExtendedLength(FormOf(code), n) == ext
      && LengthCode(FormOf(code), n) == code
  {
    Pow256Values();
    BigEndianOnto(ext);
  }

  lemma ParsedLengthIsWire(head: bytes, b: bytes)
    requires |head| == 2 && ParseLength(head, b).Complete?
    ensures var p := ParseLength(head, b);
      && Legal(p.frame) && head == Head(p.frame)
      && b == ExtendedLength(p.frame.form, |p.frame.payload|)
              + (MaskKey(p.frame.mask) + (MaskedPayload(p.frame.mask, p.frame.payload) + p.rest))
  {
    var form := FormOf(head[1] % 128);
    var width := ExtendedWidth(form);
    var ext, tail := b[..width], b[width..];
    var n := if form.Short? then head[1] % 128 else FromBigEndian(ext);
    TakeDrop(b, width);
    ReadLengthFits(head[1] % 128, ext);
    ParsedMaskIsWire(head, form, n, tail);
    HeadIsHead(head, ParseMask(head, form, n, tail).frame);
  }

  lemma HeadIsHead(head: bytes, f: Frame)
    requires |head| == 2 && Legal(f) && f.flags == head[0] / 16 && f.opcode == head[0] % 16
    requires (f.mask.Masked? <==> head[1] >= 128) && LengthCode(f.form, |f.payload|) == head[1] % 128
    ensures head == Head(f)
  {
  }

  /** Whatever is read as a complete frame is the wire form of that frame. */
  lemma ParsedIsWire(b: bytes)
    requires Parse(b).Complete?
    ensures Legal(Parse(b).frame) && Parse(b).frame.opcode != CLOSE
    ensures b == Wire(Parse(b).frame) + Parse(b).rest
  {
    ParsedLengthIsWire(b[..2], b[2..]);
    var p := ParseLength(b[..2], b[2..]);
    assert Parse(b) == p;
    WireThen(p.frame, p.rest);
    assert b == b[..2] + b[2..];
  }

  /** The reader is exact: it returns `f` and `rest` just when the octets are `f` on the wire followed by `rest`. */
  lemma ParseExact(b: bytes, f: Frame, rest: bytes)
    ensures Parse(b) == Complete(f, rest) <==> Legal(f) && f.opcode != CLOSE && b == Wire(f) + rest
  {
    if Parse(b) == Complete(f, rest) {
      ParsedIsWire(b);
    }
    if Legal(f) && f.opcode != CLOSE && b == Wire(f) + rest {
      ParseWire(f, rest);
    }
  }

  /** More octets behind a frame that is already complete do not change how it is read. */
  lemma ParseExtends(b: bytes, more: bytes)
    requires Parse(b).Complete?
    ensures Parse(b + more) == Complete(Parse(b).frame, Parse(b).rest + more)
  {
    ParsedIsWire(b);
    match Parse(b)
    case Complete(f, rest) =>
      Associates(Wire(f), rest, more);
      ParseWire(f, rest + more);
  }

  /** Masking combines each octet, bit by bit, with an octet of the key. */
  lemma MaskIsBitwise(key: Key, data: bytes, i: nat, k: nat)
    requires i < |data| && k < 8
    ensures Bit(ApplyMask(key, data)[i], k) == 1 <==> Bit(data[i], k) != Bit(key[i % 4], k)
  {
    XorIsBitwise(data[i], key[i % 4], k);
  }

  /** Where the payload of a masked frame starts: behind two header octets, the extended length and the key. */
  function MaskedStart(code: int): nat
  {
    if code == 126 then 8 else if code == 127 then 14 else 6
  }

  lemma MaskedLayout(f: Frame, rest: bytes)
    requires Legal(f) && f.mask.Masked?
    ensures var b, start := Wire(f) + rest, MaskedStart(LengthCode(f.form, |f.payload|));
      && |b| == start + |f.payload| + |rest|
      && b[start - 4..start] == f.mask.key
      && b[start..start + |f.payload|] == ApplyMask(f.mask.key, f.payload)
  {
    var front, key := Head(f) + ExtendedLength(f.form, |f.payload|), f.mask.key;
    var body := MaskedPayload(f.mask, f.payload);
    var b := front + key + body + rest;
    assert b[|front|..|front| + 4] == key;
    assert b[|front| + 4..|front| + 4 + |body|] == body;
  }

  lemma MaskedPayloadAt(f: Frame, rest: bytes, i: nat)
    requires Legal(f) && f.mask.Masked? && i < |f.payload|
    ensures var b, start := Wire(f) + rest, MaskedStart(LengthCode(f.form, |f.payload|));
      && start + i < |b|
      && b[start + i] == ApplyMask(f.mask.key, f.payload)[i] && b[start - 4 + i % 4] == f.mask.key[i % 4]
  {
    var b, start := Wire(f) + rest, MaskedStart(LengthCode(f.form, |f.payload|));
    MaskedLayout(f, rest);
    SliceAt(b, start, start + |f.payload|, i);
    SliceAt(b, start - 4, start, i % 4);
  }

  lemma SliceAt<T>(s: seq<T>, from: nat, to: nat, i: nat)
    requires from <= to <= |s| && i < to - from
    ensures s[from..to][i] == s[from + i]
  {
  }

  /**
   What is on the wire is recovered bit by bit: the octets behind the key, each combined with its octet of the key.
   */
  lemma MaskedFrameReads(b: bytes, i: nat, k: nat)
    requires Parse(b).Complete? && b[1] >= 128 && i < |Parse(b).frame.payload| && k < 8
    ensures var start := MaskedStart(b[1] % 128);
      && start + i < |b|
      && (Bit(Parse(b).frame.payload[i], k) == 1 <==> Bit(b[start + i], k) != Bit(b[start - 4 + i % 4], k))
  {
    var f, rest := Parse(b).frame, Parse(b).rest;
    ParsedIsWire(b);
    HeadOnWire(b, f, rest);
    MaskedPayloadAt(f, rest, i);
    MaskCancels(f.mask.key, f.payload);
    MaskIsBitwise(f.mask.key, ApplyMask(f.mask.key, f.payload), i, k);
  }

  lemma HeadOnWire(b: bytes, f: Frame, rest: bytes)
    requires Legal(f) && b == Wire(f) + rest
    ensures |b| >= 2 && b[0] == Head(f)[0] && b[1] == Head(f)[1]
    ensures b[1] % 128 == LengthCode(f.form, |f.payload|) && (b[1] >= 128 <==> f.mask.Masked?)
    ensures b[0] % 16 == f.opcode
  {
    WireThen(f, rest);
    HeadFields(f);
  }

  // ---------- what the terminal does with a frame ----------

  /** The opcode decides: 8 ends the conversation, 9 brings nothing, all others bring their payload. */
  lemma OpcodesMean(b: bytes)
    requires |b| >= 2
    ensures Parse(b).CloseSeen? <==> b[0] % 16 == 8
    ensures Parse(b).Complete? ==> Delivered(Parse(b).frame) == if b[0] % 16 == 9 then [] else Parse(b).frame.payload
  {
    if Parse(b).Complete? {
      ParsedIsWire(b);
      HeadOnWire(b, Parse(b).frame, Parse(b).rest);
    }
  }

  /** The bytes handed on for one frame: none for a ping, the unmasked payload for everything else. */
  function Delivered(f: Frame): bytes
  {
    if f.opcode == PING then [] else f.payload
  }

  function DeliveredAll(fs: seq<Frame>): seq<bytes>
  {
    if fs == [] then [] else [Delivered(fs[0])] + DeliveredAll(fs[1..])
  }

  lemma {:induction false} WireAllSnoc(fs: seq<Frame>, f: Frame)
    requires Legal(f) && forall g :: g in fs ==> Legal(g)
    ensures forall g :: g in fs + [f] ==> Legal(g)
    ensures WireAll(fs + [f]) == WireAll(fs) + Wire(f)
    decreases |fs|
  {
    var w := Wire(f);
    if fs == [] {
      assert fs + [f] == [f];
      assert WireAll([f][1..]) == [];
      assert w + [] == [] + w;
    } else {
      assert (fs + [f])[1..] == fs[1..] + [f];
      WireAllSnoc(fs[1..], f);
      var first, more := Wire(fs[0]), WireAll(fs[1..]);
      assert first + (more + w) == first + more + w;
    }
  }

  lemma {:induction false} DeliveredAllSnoc(fs: seq<Frame>, f: Frame)
    ensures DeliveredAll(fs + [f]) == DeliveredAll(fs) + [Delivered(f)]
    decreases |fs|
  {
    if fs == [] {
      assert fs + [f] == [f];
    } else {
      assert (fs + [f])[1..] == fs[1..] + [f];
      DeliveredAllSnoc(fs[1..], f);
    }
  }

  // ---------- the server's own frames ----------

  function MinimalForm(n: nat): LengthForm
  {
    if n < 126 then Short else if n < 0x1_0000 then Medium else Long
  }

  /** An unmasked, unfragmented binary frame. */
  function ServerFrame(data: bytes): Frame
  {
    Frame(8, 2, Unmasked, MinimalForm(|data|), data)
  }

  /**
   Section 5.2 asks for the fewest length octets: no legal frame with this payload is shorter, and the form is the
   only shortest one.
   */
  lemma ServerFrameIsMinimal(data: bytes, f: Frame)
    requires |data| < 0x1_0000_0000_0000_0000
    requires Legal(f) && |f.payload| == |data|
    ensures Legal(ServerFrame(data))
    ensures |Wire(ServerFrame(data))| <= |Wire(f)|
    ensures |Wire(ServerFrame(data))| == |Wire(f)| <==> f.form == MinimalForm(|data|) && f.mask.Unmasked?
  {
    assert |Wire(f)| == 2 + ExtendedWidth(f.form) + |MaskKey(f.mask)| + |data|;
    assert |Wire(ServerFrame(data))| == 2 + ExtendedWidth(MinimalForm(|data|)) + |data|;
  }

  /** The server's frame octet by octet: final and binary, not masked, the length most significant octet first. */
  lemma ServerFrameOctets(data: bytes)
    requires |data| < 0x1_0000_0000_0000_0000
    ensures var n := |data|;
      Wire(ServerFrame(data)) ==
        if n < 126 then [0x82, n] + data
        else if n < 0x1_0000 then [0x82, 126, n / 256, n % 256] + data
        else [0x82, 127] + BigEndian(n, 8) + data
  {
    var n := |data|;
    if 126 <= n < 0x1_0000 {
      assert BigEndian(n / 256, 1) == [n / 256];
      assert BigEndian(n, 2) == [n / 256] + [n % 256];
    }
  }
}
