/** The agent transport's frame codec and padding (internal/agentlink/agentlink.go,
    internal/agentlink/session.go). */
module Framing {

  import opened Common

  const MAX_FRAME_PAYLOAD: nat := 0x10_0000
  const HEADER_LEN: nat := 6
  const MIN_PADDED_FRAME: nat := 128
  const MAX_PAD_LEN: nat := 0xFFFF
  const TWO_32: nat := 0x1_0000_0000

  type Byte = b: int | 0 <= b < 256

  datatype Frame = Frame(kind: Byte, flags: Byte, payload: seq<Byte>)

  datatype ReadResult = Got(frame: Frame, rest: seq<Byte>) | ShortRead | TooLarge

  // ----- Big-endian integers -----

  function Uint16(n: nat): (b: seq<Byte>)
    ensures |b| == 2
  {
    [n / 0x100 % 0x100, n % 0x100]
  }

  function FromUint16(b: seq<Byte>): nat
    requires |b| == 2
  {
    b[0] as int * 0x100 + b[1] as int
  }

  function Uint32(n: nat): (b: seq<Byte>)
    ensures |b| == 4
  {
    Uint16(n / 0x1_0000) + Uint16(n)
  }

  function FromUint32(b: seq<Byte>): nat
    requires |b| == 4
  {
    FromUint16(b[..2]) * 0x1_0000 + FromUint16(b[2..])
  }

  lemma Uint16RoundTrip(n: nat)
    ensures FromUint16(Uint16(n)) == n % 0x1_0000
  {
    var q := n / 0x100;
    assert n == 0x100 * q + n % 0x100 && q == 0x100 * (q / 0x100) + q % 0x100;
    assert n == 0x1_0000 * (q / 0x100) + FromUint16(Uint16(n));
  }

  lemma Uint32RoundTrip(n: nat)
    ensures FromUint32(Uint32(n)) == n % TWO_32
  {
    Uint16RoundTrip(n / 0x1_0000);
    Uint16RoundTrip(n);
    assert Uint32(n)[..2] == Uint16(n / 0x1_0000) && Uint32(n)[2..] == Uint16(n);
  }

  // ----- Frames -----

  /** The length field is the payload length truncated to 32 bits. */
  function WriteFrame(f: Frame): (wire: seq<Byte>)
    ensures |wire| == HEADER_LEN + |f.payload|
  {
    [f.kind, f.flags] + Uint32(|f.payload|) + f.payload
  }

  function ReadFrame(stream: seq<Byte>): (r: ReadResult)
    ensures r.Got? ==> |r.rest| + HEADER_LEN <= |stream|
  {
    if |stream| < HEADER_LEN then ShortRead
    else
      var length := FromUint32(stream[2..6]);
      if length > MAX_FRAME_PAYLOAD then TooLarge
      else if |stream| < HEADER_LEN + length then ShortRead
      else Got(Frame(stream[0], stream[1], stream[6..6 + length]), stream[6 + length..])
  }

  lemma WrittenHeader(f: Frame, rest: seq<Byte>)
    ensures var stream := WriteFrame(f) + rest;
            && |stream| == HEADER_LEN + |f.payload| + |rest| && stream[0] == f.kind && stream[1] == f.flags
            && FromUint32(stream[2..6]) == |f.payload| % TWO_32
            && stream[2] as int * 16777216 + stream[3] as int * 65536 + stream[4] as int * 256 + stream[5] as int == |f.payload| % 4294967296
            && stream[6..] == f.payload + rest
  {
    var stream := WriteFrame(f) + rest;
    assert stream[2..6] == Uint32(|f.payload|);
    Uint32RoundTrip(|f.payload|);
  }

  /** A written frame is read back, leaving what follows, exactly when its payload is within the
      receiver's limit; the writer itself does not check. */
  lemma FrameRoundTrip(f: Frame, rest: seq<Byte>)
    ensures ReadFrame(WriteFrame(f) + rest) == Got(f, rest) <==> |f.payload| <= MAX_FRAME_PAYLOAD
  {
    WrittenHeader(f, rest);
    var stream := WriteFrame(f) + rest;
    if |f.payload| <= MAX_FRAME_PAYLOAD {
      var n := |f.payload|;
      assert stream[6..6 + n] == stream[6..][..n] && stream[6 + n..] == stream[6..][n..];
    }
  }

  /** The two ends of a connection; `bytes` is what was written and not yet read. */
  class Wire {
    var bytes: seq<Byte>

    constructor ()
      ensures bytes == []
    {
      bytes := [];
    }

    /** Fills a header buffer and writes it, then the payload. */
    method Send(f: Frame)
      modifies this
      ensures bytes == old(bytes) + WriteFrame(f)
    {
      var header := new Byte[HEADER_LEN](_ => 0);
      header[0], header[1] := f.kind, f.flags;
      var length := Uint32(|f.payload|);
      header[2], header[3], header[4], header[5] := length[0], length[1], length[2], length[3];
      assert header[..] == [f.kind, f.flags] + length;
      bytes := bytes + header[..];
      bytes := bytes + f.payload;
    }

    /** Takes up to `n` bytes; a short read takes whatever there is. */
    method ReadFull(n: nat) returns (got: Option<seq<Byte>>)
      modifies this
      ensures if n <= |old(bytes)| then got == Some(old(bytes)[..n]) && bytes == old(bytes)[n..]
              else got == None && bytes == []
    {
      if n > |bytes| {
        bytes := [];
        return None;
      }
      got := Some(bytes[..n]);
      bytes := bytes[n..];
    }

    /** Consumes exactly the frame it returns; an oversized one costs only its header. */
    method Fetch() returns (r: ReadResult)
      modifies this
      ensures r == ReadFrame(old(bytes))
      ensures match r
              case Got(_, rest) => bytes == rest
              case ShortRead => bytes == []
              case TooLarge => bytes == old(bytes)[HEADER_LEN..]
    {
      var header := ReadFull(HEADER_LEN);
      if header.None? {
        return ShortRead;
      }
      assert header.value[2..] == old(bytes)[2..6];
      var length := FromUint32(header.value[2..]);
      if length > MAX_FRAME_PAYLOAD {
        return TooLarge;
      }
      var payload := ReadFull(length);
      if payload.None? {
        return ShortRead;
      }
      r := Got(Frame(header.value[0], header.value[1], payload.value), bytes);
    }
  }

  // ----- Streams of frames -----

  function WriteAll(frames: seq<Frame>): seq<Byte> {
    if frames == [] then [] else WriteFrame(frames[0]) + WriteAll(frames[1..])
  }

  /** Frames read until the stream ends at a frame boundary; `None` when it does not. */
  function ReadAll(stream: seq<Byte>): Option<seq<Frame>>
    decreases |stream|
  {
    if stream == [] then Some([])
    else
      match ReadFrame(stream)
      case Got(f, rest) =>
        (match ReadAll(rest)
         case Some(frames) => Some([f] + frames)
         case None => None)
      case _ => None
  }

  /** Reading the concatenation of written frames returns exactly those frames. */
  lemma {:induction false} StreamRoundTrip(frames: seq<Frame>)
    requires forall i :: 0 <= i < |frames| ==> |frames[i].payload| <= MAX_FRAME_PAYLOAD
    ensures ReadAll(WriteAll(frames)) == Some(frames)
  {
    if frames != [] {
      FrameRoundTrip(frames[0], WriteAll(frames[1..]));
      StreamRoundTrip(frames[1..]);
      assert frames == [frames[0]] + frames[1..];
    }
  }

  // ----- Padding -----

  function BuildPadding(payload: seq<Byte>, padLen: int): Option<seq<Byte>> {
    if padLen < 0 || padLen > MAX_PAD_LEN || 2 + padLen + |payload| > MAX_FRAME_PAYLOAD then None
    else Some(Uint16(padLen) + seq(padLen, _ => 0) + payload)
  }

  function StripPadding(payload: seq<Byte>): Option<seq<Byte>> {
    if |payload| < 2 then None
    else
      var padLen := FromUint16(payload[..2]);
      if 2 + padLen > |payload| then None else Some(payload[2 + padLen..])
  }

  /** Stripping undoes padding whenever padding is possible at all. */
  lemma PaddingRoundTrip(payload: seq<Byte>, padLen: int)
    ensures BuildPadding(payload, padLen).Some? <==>
              0 <= padLen <= MAX_PAD_LEN && 2 + padLen + |payload| <= MAX_FRAME_PAYLOAD
    ensures BuildPadding(payload, padLen).Some? ==>
              StripPadding(BuildPadding(payload, padLen).value) == Some(payload)
    ensures BuildPadding(payload, padLen).Some? ==>
              var padded := BuildPadding(payload, padLen).value;
              && |padded| == 2 + padLen + |payload| && padded[0] as int * 256 + padded[1] as int == padLen
              && forall i :: 2 <= i < 2 + padLen ==> padded[i] == 0
  {
    if BuildPadding(payload, padLen).Some? {
      var padded := BuildPadding(payload, padLen).value;
      assert padded[..2] == Uint16(padLen);
      Uint16RoundTrip(padLen);
    }
  }

  predicate HasPad(flags: Byte) {
    flags / 2 % 2 == 1
  }

  function WithPad(flags: Byte): (r: Byte)
    ensures HasPad(r)
  {
    if HasPad(flags) then flags else flags + 2
  }

  function WritePadded(f: Frame, payload: seq<Byte>): Option<seq<Byte>> {
    if |payload| + HEADER_LEN >= MIN_PADDED_FRAME then Some(WriteFrame(f.(payload := payload)))
    else
      match BuildPadding(payload, MIN_PADDED_FRAME - HEADER_LEN - |payload|)
      case None => None
      case Some(padded) => Some(WriteFrame(f.(flags := WithPad(f.flags), payload := padded)))
  }

  /** What a read loop hands on: the payload without padding. */
  function Receive(stream: seq<Byte>): Option<(Byte, seq<Byte>, seq<Byte>)> {
    match ReadFrame(stream)
    case Got(f, rest) =>
      if HasPad(f.flags) then
        (match StripPadding(f.payload)
         case Some(payload) => Some((f.kind, payload, rest))
         case None => None)
      else Some((f.kind, f.payload, rest))
    case _ => None
  }

  lemma PaddedFits(payload: seq<Byte>)
    requires |payload| + HEADER_LEN < MIN_PADDED_FRAME
    ensures var padded := BuildPadding(payload, MIN_PADDED_FRAME - HEADER_LEN - |payload|);
            padded.Some? && |padded.value| == 124
  {
  }

  /** Sending never fails; the receiver gets the payload back exactly when it fits a frame. */
  lemma PaddedRoundTrip(f: Frame, payload: seq<Byte>, rest: seq<Byte>)
    requires !HasPad(f.flags)
    ensures WritePadded(f, payload).Some?
    ensures Receive(WritePadded(f, payload).value + rest) == Some((f.kind, payload, rest)) <==> |payload| <= MAX_FRAME_PAYLOAD
  {
    if |payload| + HEADER_LEN >= MIN_PADDED_FRAME {
      LongRoundTrip(f.(payload := payload), rest);
    } else {
      var padLen := MIN_PADDED_FRAME - HEADER_LEN - |payload|;
      PaddedFits(payload);
      PaddingRoundTrip(payload, padLen);
      FrameRoundTrip(f.(flags := WithPad(f.flags), payload := BuildPadding(payload, padLen).value), rest);
    }
  }

  lemma LongRoundTrip(f: Frame, rest: seq<Byte>)
    requires !HasPad(f.flags)
    ensures Receive(WriteFrame(f) + rest) == Some((f.kind, f.payload, rest)) <==> |f.payload| <= MAX_FRAME_PAYLOAD
  {
    FrameRoundTrip(f, rest);
    WrittenHeader(f, rest);
  }

  /** Every padded frame reaches the minimum size on the wire, and all short messages have the
      same length there: 130 bytes. */
  lemma PaddedLength(f: Frame, payload: seq<Byte>)
    ensures WritePadded(f, payload).Some? && |WritePadded(f, payload).value| >= MIN_PADDED_FRAME
    ensures |payload| + HEADER_LEN < MIN_PADDED_FRAME ==> |WritePadded(f, payload).value| == 130
  {
    if |payload| + HEADER_LEN < MIN_PADDED_FRAME {
      PaddedFits(payload);
    }
  }
}
