/**
 The length-prefixed frames of the browser-host pipe
 (`apps/desktop/src/browserUsePipeServer.ts`, 173-201): a four-byte length in the
 machine's byte order, then that many bytes of payload.
*/
module FrameCodec {
  newtype Byte = x: int | 0 <= x < 256

  type Bytes = seq<Byte>

  datatype Endianness = LittleEndian | BigEndian

  /** What one decoding of a buffer yields; a frame announcing too long a payload rejects all of it. */
  datatype Decoding = Rejected | Decoded(messages: seq<Bytes>, remaining: Bytes)

  const FRAME_HEADER_BYTES := 4
  const MAX_MESSAGE_BYTES := 12 * 1024 * 1024
  const UINT32_LIMIT := 0x1_0000_0000

  // ----------------------------------------------------------------- lengths

  function Digits(n: nat): Bytes
    requires n < UINT32_LIMIT
  {
    [(n % 256) as Byte, (n / 256 % 256) as Byte, (n / 256 / 256 % 256) as Byte, (n / 256 / 256 / 256) as Byte]
  }

  function Reversed(s: Bytes): (r: Bytes)
    requires |s| == FRAME_HEADER_BYTES
    ensures |r| == FRAME_HEADER_BYTES
  {
    [s[3], s[2], s[1], s[0]]
  }

  /** `writeUInt32LE` or `writeUInt32BE`. */
  function Header(e: Endianness, n: nat): Bytes
    requires n < UINT32_LIMIT
  {
    if e.LittleEndian? then Digits(n) else Reversed(Digits(n))
  }

  /** `readUInt32LE` or `readUInt32BE`. */
  function ReadLength(e: Endianness, s: Bytes): nat
    requires |s| >= FRAME_HEADER_BYTES
  {
    var d := if e.LittleEndian? then s[..4] else Reversed(s[..4]);
    d[0] as nat + 256 * d[1] as nat + 65536 * d[2] as nat + 16777216 * d[3] as nat
  }

  lemma LowByte(low: nat, rest: nat)
    requires low < 256
    ensures (low + 256 * rest) % 256 == low && (low + 256 * rest) / 256 == rest
  {
  }

  /** In either byte order a header reads back as the length it was written for. */
  lemma HeaderRoundTrip(e: Endianness, n: nat, tail: Bytes)
    requires n < UINT32_LIMIT
    ensures |Header(e, n)| == FRAME_HEADER_BYTES && ReadLength(e, Header(e, n) + tail) == n
  {
  }

  /** And four bytes are the header of the length they read as. */
  lemma HeaderOfLength(e: Endianness, s: Bytes)
    requires |s| >= FRAME_HEADER_BYTES
    ensures ReadLength(e, s) < UINT32_LIMIT && Header(e, ReadLength(e, s)) == s[..4]
  {
    var d := if e.LittleEndian? then s[..4] else Reversed(s[..4]);
    var a, b, c, f := d[0] as nat, d[1] as nat, d[2] as nat, d[3] as nat;
    LowByte(a, b + 256 * (c + 256 * f));
    LowByte(b, c + 256 * f);
    LowByte(c, f);
    assert ReadLength(e, s) == a + 256 * (b + 256 * (c + 256 * f));
    assert Digits(ReadLength(e, s)) == d;
  }

  // ------------------------------------------------------------------ frames

  /** `encodeFrame`. */
  function Encode(e: Endianness, payload: Bytes): Bytes
    requires |payload| < UINT32_LIMIT
  {
    Header(e, |payload|) + payload
  }

  predicate Fits(payload: Bytes) { |payload| <= MAX_MESSAGE_BYTES }

  predicate AllFit(payloads: seq<Bytes>) { forall i | 0 <= i < |payloads| :: Fits(payloads[i]) }

  function EncodeAll(e: Endianness, payloads: seq<Bytes>): Bytes
    requires AllFit(payloads)
  {
    if payloads == [] then [] else Encode(e, payloads[0]) + EncodeAll(e, payloads[1..])
  }

  lemma EncodeCons(e: Endianness, payload: Bytes, more: seq<Bytes>)
    requires Fits(payload) && AllFit(more)
    ensures AllFit([payload] + more) && EncodeAll(e, [payload] + more) == Encode(e, payload) + EncodeAll(e, more)
  {
  }

  /** A tail too short to hold the frame it begins, which is one the decoder would take. */
  predicate Incomplete(e: Endianness, s: Bytes) {
    |s| < FRAME_HEADER_BYTES || (ReadLength(e, s) <= MAX_MESSAGE_BYTES && |s| < FRAME_HEADER_BYTES + ReadLength(e, s))
  }

  predicate TooLong(e: Endianness, s: Bytes) {
    |s| >= FRAME_HEADER_BYTES && ReadLength(e, s) > MAX_MESSAGE_BYTES
  }

  function Prepend(messages: seq<Bytes>, d: Decoding): Decoding {
    if d.Rejected? then Rejected else Decoded(messages + d.messages, d.remaining)
  }

  /** Decoding a whole buffer, frame by frame from the front. */
  function DecodeAll(e: Endianness, s: Bytes): Decoding
    decreases |s|
  {
    if TooLong(e, s) then Rejected
    else if Incomplete(e, s) then Decoded([], s)
    else
      var frameLength := FRAME_HEADER_BYTES + ReadLength(e, s);
      Prepend([s[4..frameLength]], DecodeAll(e, s[frameLength..]))
  }

  lemma PrependTwice(a: seq<Bytes>, b: seq<Bytes>, d: Decoding)
    ensures Prepend(a, Prepend(b, d)) == Prepend(a + b, d)
  {
  }

  /** `decodeFrames`. */
  method DecodeFrames(e: Endianness, buffer: Bytes) returns (r: Decoding)
    ensures r == DecodeAll(e, buffer)
  {
    hide ReadLength;
    var offset := 0;
    var messages: seq<Bytes> := [];
    assert buffer[0..] == buffer;
    EmptyPrepend(DecodeAll(e, buffer));
    while |buffer| - offset >= FRAME_HEADER_BYTES
      invariant 0 <= offset <= |buffer|
      invariant DecodeAll(e, buffer) == Prepend(messages, DecodeAll(e, buffer[offset..]))
      decreases |buffer| - offset
    {
      var length := ReadLength(e, buffer[offset..]);
      if length > MAX_MESSAGE_BYTES { return Rejected; }
      var frameLength := FRAME_HEADER_BYTES + length;
      if |buffer| - offset < frameLength { break; }
      var payload := buffer[offset + FRAME_HEADER_BYTES..offset + frameLength];
      OneFrame(e, buffer, offset, messages);
      messages := messages + [payload];
      offset := offset + frameLength;
    }
    assert messages + [] == messages;
    return Decoded(messages, buffer[offset..]);
  }

  /** One turn of the loop. */
  lemma OneFrame(e: Endianness, buffer: Bytes, offset: nat, messages: seq<Bytes>)
    requires offset <= |buffer| && !TooLong(e, buffer[offset..]) && !Incomplete(e, buffer[offset..])
    ensures var frameLength := FRAME_HEADER_BYTES + ReadLength(e, buffer[offset..]);
            Prepend(messages, DecodeAll(e, buffer[offset..]))
            == Prepend(messages + [buffer[offset + FRAME_HEADER_BYTES..offset + frameLength]],
                       DecodeAll(e, buffer[offset + frameLength..]))
  {
    hide ReadLength;
    var frameLength := FRAME_HEADER_BYTES + ReadLength(e, buffer[offset..]);
    var payload := buffer[offset + FRAME_HEADER_BYTES..offset + frameLength];
    assert payload == buffer[offset..][4..frameLength]
           && buffer[offset + frameLength..] == buffer[offset..][frameLength..];
    PrependTwice(messages, [payload], DecodeAll(e, buffer[offset + frameLength..]));
  }

  /** A frame at the front comes off first. */
  lemma DecodeFrame(e: Endianness, payload: Bytes, rest: Bytes)
    requires Fits(payload)
    ensures DecodeAll(e, Encode(e, payload) + rest) == Prepend([payload], DecodeAll(e, rest))
  {
    var s := Encode(e, payload) + rest;
    assert s == Header(e, |payload|) + (payload + rest);
    HeaderRoundTrip(e, |payload|, payload + rest);
    assert s[4..4 + |payload|] == payload && s[4 + |payload|..] == rest;
  }

  /** Frames followed by anything decode to their payloads and what the rest decodes to. */
  lemma {:induction false} DecodeEncoded(e: Endianness, payloads: seq<Bytes>, rest: Bytes)
    requires AllFit(payloads)
    ensures DecodeAll(e, EncodeAll(e, payloads) + rest) == Prepend(payloads, DecodeAll(e, rest))
    decreases |payloads|
  {
    hide Encode, ReadLength;
    if payloads == [] {
      assert EncodeAll(e, payloads) + rest == rest;
      assert Prepend([], DecodeAll(e, rest)) == DecodeAll(e, rest) by { EmptyPrepend(DecodeAll(e, rest)); }
    } else {
      var tail := EncodeAll(e, payloads[1..]) + rest;
      assert Fits(payloads[0]);
      assert EncodeAll(e, payloads) + rest == Encode(e, payloads[0]) + tail;
      DecodeFrame(e, payloads[0], tail);
      DecodeEncoded(e, payloads[1..], rest);
      PrependTwice([payloads[0]], payloads[1..], DecodeAll(e, rest));
      assert [payloads[0]] + payloads[1..] == payloads;
    }
  }

  lemma EmptyPrepend(d: Decoding)
    ensures Prepend([], d) == d
  {
  }

  /** A buffer that holds a whole frame is that frame and the rest. */
  lemma FrameAtFront(e: Endianness, s: Bytes) returns (payload: Bytes, tail: Bytes)
    requires !TooLong(e, s) && !Incomplete(e, s)
    ensures Fits(payload) && |tail| < |s| && s == Encode(e, payload) + tail
    ensures DecodeAll(e, s) == Prepend([payload], DecodeAll(e, tail))
  {
    var n := ReadLength(e, s);
    payload, tail := s[4..4 + n], s[4 + n..];
    HeaderOfLength(e, s);
    assert s == s[..4] + payload + tail;
  }

  lemma Regroup(a: Bytes, b: Bytes, c: Bytes)
    ensures a + b + c == a + (b + c)
  {
  }

  /** Whatever decodes is exactly the frames of the messages, followed by the incomplete remainder. */
  lemma {:induction false} DecodedParts(e: Endianness, s: Bytes)
    requires DecodeAll(e, s).Decoded?
    ensures var d := DecodeAll(e, s);
            AllFit(d.messages) && Incomplete(e, d.remaining) && s == EncodeAll(e, d.messages) + d.remaining
    decreases |s|
  {
    hide ReadLength, Encode;
    if !Incomplete(e, s) {
      var payload, tail := FrameAtFront(e, s);
      DecodedParts(e, tail);
      var r := DecodeAll(e, tail);
      EncodeCons(e, payload, r.messages);
      Regroup(Encode(e, payload), EncodeAll(e, r.messages), r.remaining);
    }
  }

  /** A rejected buffer holds, after whole frames, a header that announces too much. */
  lemma {:induction false} RejectedParts(e: Endianness, s: Bytes) returns (payloads: seq<Bytes>, rest: Bytes)
    requires DecodeAll(e, s).Rejected?
    ensures AllFit(payloads) && TooLong(e, rest) && s == EncodeAll(e, payloads) + rest
    decreases |s|
  {
    hide ReadLength, Encode;
    if TooLong(e, s) {
      payloads, rest := [], s;
    } else {
      var payload, tail := FrameAtFront(e, s);
      var more;
      more, rest := RejectedParts(e, tail);
      payloads := [payload] + more;
      EncodeCons(e, payload, more);
      Regroup(Encode(e, payload), EncodeAll(e, more), rest);
    }
  }

  /** The decoder's answer, said without the decoder: the only split into fitting frames and an incomplete tail. */
  lemma DecodedIff(e: Endianness, s: Bytes, payloads: seq<Bytes>, rest: Bytes)
    ensures DecodeAll(e, s) == Decoded(payloads, rest) <==>
              (AllFit(payloads) && Incomplete(e, rest) && s == EncodeAll(e, payloads) + rest)
  {
    if DecodeAll(e, s) == Decoded(payloads, rest) { DecodedParts(e, s); }
    if AllFit(payloads) && Incomplete(e, rest) && s == EncodeAll(e, payloads) + rest {
      DecodeEncoded(e, payloads, rest);
      assert payloads + [] == payloads;
    }
  }

  lemma RejectedIff(e: Endianness, s: Bytes)
    ensures DecodeAll(e, s) == Rejected <==>
              exists payloads: seq<Bytes>, rest ::
                AllFit(payloads) && TooLong(e, rest) && s == EncodeAll(e, payloads) + rest
  {
    if DecodeAll(e, s) == Rejected { var payloads, rest := RejectedParts(e, s); }
    if payloads: seq<Bytes>, rest :| AllFit(payloads) && TooLong(e, rest) && s == EncodeAll(e, payloads) + rest {
      DecodeEncoded(e, payloads, rest);
    }
  }

  lemma RemainingIsShort(e: Endianness, s: Bytes)
    ensures DecodeAll(e, s).Decoded? ==> |DecodeAll(e, s).remaining| < FRAME_HEADER_BYTES + MAX_MESSAGE_BYTES
  {
  }

  // ---------------------------------------------------------------- chunking

  /** The receiving side of a connection: what it has delivered and what waits, or nothing once destroyed. */
  datatype Receiver = Listening(delivered: seq<Bytes>, pending: Bytes) | Destroyed

  /** `handleData`, as far as bytes go. */
  function Receive(e: Endianness, r: Receiver, chunk: Bytes): Receiver {
    if r.Destroyed? then Destroyed
    else match DecodeAll(e, r.pending + chunk)
      case Rejected => Destroyed
      case Decoded(messages, remaining) => Listening(r.delivered + messages, remaining)
  }

  function ReceiveAll(e: Endianness, r: Receiver, chunks: seq<Bytes>): Receiver {
    if chunks == [] then r else Receive(e, ReceiveAll(e, r, chunks[..|chunks| - 1]), chunks[|chunks| - 1])
  }

  function Concat(chunks: seq<Bytes>): Bytes {
    if chunks == [] then [] else Concat(chunks[..|chunks| - 1]) + chunks[|chunks| - 1]
  }

  function Whole(e: Endianness, s: Bytes): Receiver {
    match DecodeAll(e, s)
    case Rejected => Destroyed
    case Decoded(messages, remaining) => Listening(messages, remaining)
  }

  lemma StillTooLong(e: Endianness, s: Bytes, t: Bytes)
    requires TooLong(e, s)
    ensures TooLong(e, s + t) && DecodeAll(e, s + t) == Rejected
  {
  }

  /** More bytes never undo a rejection, and otherwise only the remainder matters. */
  lemma DecodeMore(e: Endianness, s: Bytes, t: Bytes)
    ensures DecodeAll(e, s + t) == match DecodeAll(e, s)
                                   case Rejected => Rejected
                                   case Decoded(messages, remaining) => Prepend(messages, DecodeAll(e, remaining + t))
  {
    hide Encode, EncodeAll, DecodeAll, ReadLength;
    if DecodeAll(e, s).Rejected? {
      var payloads, rest := RejectedParts(e, s);
      Regroup(EncodeAll(e, payloads), rest, t);
      StillTooLong(e, rest, t);
      DecodeEncoded(e, payloads, rest + t);
    } else {
      DecodedParts(e, s);
      var d := DecodeAll(e, s);
      Regroup(EncodeAll(e, d.messages), d.remaining, t);
      DecodeEncoded(e, d.messages, d.remaining + t);
    }
  }

  /** However a stream is cut into chunks, the connection ends as if it had come whole. */
  lemma {:induction false} ChunkingIrrelevant(e: Endianness, chunks: seq<Bytes>)
    ensures ReceiveAll(e, Listening([], []), chunks) == Whole(e, Concat(chunks))
    decreases |chunks|
  {
    if chunks != [] {
      var earlier, last := chunks[..|chunks| - 1], chunks[|chunks| - 1];
      ChunkingIrrelevant(e, earlier);
      DecodeMore(e, Concat(earlier), last);
    }
  }

  lemma SameBytesSameOutcome(e: Endianness, a: seq<Bytes>, b: seq<Bytes>)
    requires Concat(a) == Concat(b)
    ensures ReceiveAll(e, Listening([], []), a) == ReceiveAll(e, Listening([], []), b)
  {
    ChunkingIrrelevant(e, a);
    ChunkingIrrelevant(e, b);
  }

  // ----------------------------------------------------------------- writing

  /** The size rule of `write`: the whole frame, header included, within the limit. */
  predicate Writable(payload: Bytes) { FRAME_HEADER_BYTES + |payload| <= MAX_MESSAGE_BYTES }

  /** Whatever `write` lets through, a peer's decoder takes, with any cut at the end. */
  lemma WrittenIsAccepted(e: Endianness, payloads: seq<Bytes>, cut: Bytes)
    requires forall p | p in payloads :: Writable(p)
    requires Incomplete(e, cut)
    ensures forall p: Bytes :: Writable(p) <==> Fits(p) && |Encode(e, p)| <= MAX_MESSAGE_BYTES
    ensures AllFit(payloads)
    ensures DecodeAll(e, EncodeAll(e, payloads) + cut) == Decoded(payloads, cut)
  {
    forall i | 0 <= i < |payloads| ensures Fits(payloads[i]) { assert payloads[i] in payloads; }
    DecodedIff(e, EncodeAll(e, payloads) + cut, payloads, cut);
  }
}
