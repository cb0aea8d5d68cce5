// The wire frame codec (src/net/frame.cpp).
//
// `ParseOne` reads one frame off the front of a byte string and `ParseAll` reads a
// whole stream at once. Class `FrameReader` is the incremental decoder; fed any
// chunking of a stream, it yields what the one-shot parser yields.
module Frames {
  import opened Core
  import opened Bytes

  const HEADER_SIZE: nat := 20
  const COVERED: nat := 16
  const TRAILER_SIZE: nat := 4
  const MAX_FRAME_PAYLOAD: nat := 0x10_0000
  const SOCKET_READ_CHUNK: nat := 0x1_0000
  const WIRE_VERSION: nat := 1
  const MAGIC: seq<byte> := [0x44, 0x4D, 0x46, 0x46]

  predicate KnownType(t: nat) {
    t == 1 || t == 2 || (10 <= t <= 121 && t % 10 <= 1)
  }

  datatype Frame = Frame(messageType: nat, payload: seq<byte>)

  datatype Step = NeedMore | Bad(error: ErrorCode) | Got(frame: Frame, size: nat)

  // --------------------------------------------------------------------------
  // The one-shot parser
  // --------------------------------------------------------------------------

  function Field(bs: seq<byte>, at: nat, n: nat): nat
    requires at + n <= |bs|
  {
    Number(bs[at..at + n])
  }

  // The checks on a complete header, in order.
  function HeaderFault(h: seq<byte>, maxPayload: nat): Option<ErrorCode>
    requires |h| == HEADER_SIZE
  {
    if h[..4] != MAGIC then Some(Corrupt)
    else if Field(h, COVERED, 4) != Checksum(h[..COVERED]) then Some(IntegrityFailure)
    else if Field(h, 4, 2) != WIRE_VERSION then Some(VersionUnsupported)
    else if !KnownType(Field(h, 6, 2)) then Some(InvalidEnum)
    else if Field(h, 8, 2) != 0 then Some(Invalid)
    else if Field(h, 10, 2) != 0 then Some(Corrupt)
    else if Field(h, 12, 4) > maxPayload then Some(CapacityExceeded)
    else None
  }

  function ParseOne(bs: seq<byte>, maxPayload: nat): (r: Step)
    ensures r.Got? ==> HEADER_SIZE + TRAILER_SIZE <= r.size <= |bs|
  {
    if |bs| < HEADER_SIZE then NeedMore
    else
      var h := bs[..HEADER_SIZE];
      if HeaderFault(h, maxPayload).Some? then Bad(HeaderFault(h, maxPayload).value)
      else
        var length := Field(h, 12, 4);
        var total := HEADER_SIZE + length + TRAILER_SIZE;
        if |bs| < total then NeedMore
        else
          var payload := bs[HEADER_SIZE..HEADER_SIZE + length];
          if Field(bs, HEADER_SIZE + length, 4) != Checksum(payload) then Bad(IntegrityFailure)
          else Got(Frame(Field(h, 6, 2), payload), total)
  }

  datatype Parsed = Parsed(frames: seq<Frame>, error: Option<ErrorCode>, rest: seq<byte>)

  function ParseAll(bs: seq<byte>, maxPayload: nat): Parsed
    decreases |bs|
  {
    match ParseOne(bs, maxPayload)
    case NeedMore => Parsed([], None, bs)
    case Bad(e) => Parsed([], Some(e), bs)
    case Got(f, n) =>
      var tail := ParseAll(bs[n..], maxPayload);
      tail.(frames := [f] + tail.frames)
  }

  // --------------------------------------------------------------------------
  // More bytes never change what was already decided
  // --------------------------------------------------------------------------

  lemma {:induction false} ParseOneExtends(a: seq<byte>, b: seq<byte>, maxPayload: nat)
    requires !ParseOne(a, maxPayload).NeedMore?
    ensures ParseOne(a + b, maxPayload) == ParseOne(a, maxPayload)
  {
    hide HeaderFault, Number, Checksum;
    assert (a + b)[..HEADER_SIZE] == a[..HEADER_SIZE];
    if HeaderFault(a[..HEADER_SIZE], maxPayload).None? {
      var length := Field(a[..HEADER_SIZE], 12, 4);
      var stop := HEADER_SIZE + length;
      assert (a + b)[HEADER_SIZE..stop] == a[HEADER_SIZE..stop];
      assert (a + b)[stop..stop + 4] == a[stop..stop + 4];
    }
  }

  // What waits for more bytes is shorter than one maximal frame.
  lemma {:induction false} NeedMoreIsShort(bs: seq<byte>, maxPayload: nat)
    requires ParseOne(bs, maxPayload).NeedMore?
    ensures |bs| < HEADER_SIZE + maxPayload + TRAILER_SIZE
  {
    hide Number, Checksum;
  }

  function Before(frames: seq<Frame>, p: Parsed): Parsed {
    p.(frames := frames + p.frames)
  }

  lemma {:induction false} BeforeTwice(a: seq<Frame>, b: seq<Frame>, p: Parsed)
    ensures Before(a, Before(b, p)) == Before(a + b, p) && Before([], p) == p
  {
    assert a + (b + p.frames) == (a + b) + p.frames;
    assert [] + p.frames == p.frames;
  }

  lemma {:induction false} ParseAllUnfold(bs: seq<byte>, maxPayload: nat)
    ensures ParseAll(bs, maxPayload) ==
      match ParseOne(bs, maxPayload)
      case NeedMore => Parsed([], None, bs)
      case Bad(e) => Parsed([], Some(e), bs)
      case Got(f, n) => Before([f], ParseAll(bs[n..], maxPayload))
  {
    hide ParseOne;
  }

  // Parsing a stream can stop anywhere and be picked up again.
  lemma {:induction false} ParseAllSplits(a: seq<byte>, b: seq<byte>, maxPayload: nat)
    ensures var first, whole := ParseAll(a, maxPayload), ParseAll(a + b, maxPayload);
      if first.error.Some? then whole.frames == first.frames && whole.error == first.error
      else whole == Before(first.frames, ParseAll(first.rest + b, maxPayload))
    decreases |a|
  {
    hide ParseOne, ParseAll;
    ParseAllUnfold(a, maxPayload);
    ParseAllUnfold(a + b, maxPayload);
    var step := ParseOne(a, maxPayload);
    if step.NeedMore? {
      BeforeTwice([], [], ParseAll(a + b, maxPayload));
    } else {
      ParseOneExtends(a, b, maxPayload);
      if step.Got? {
        var n := step.size;
        assert (a + b)[n..] == a[n..] + b;
        ParseAllSplits(a[n..], b, maxPayload);
        var first := ParseAll(a[n..], maxPayload);
        BeforeTwice([step.frame], first.frames, ParseAll(first.rest + b, maxPayload));
      }
    }
  }

  lemma {:induction false} RestWaits(bs: seq<byte>, maxPayload: nat)
    requires ParseAll(bs, maxPayload).error.None?
    ensures ParseOne(ParseAll(bs, maxPayload).rest, maxPayload).NeedMore?
    decreases |bs|
  {
    hide ParseOne;
    var step := ParseOne(bs, maxPayload);
    if step.Got? { RestWaits(bs[step.size..], maxPayload); }
  }

  // --------------------------------------------------------------------------
  // The incremental decoder
  // --------------------------------------------------------------------------

  class FrameReader {
    const maxPayload: nat
    var buffer: seq<byte>
    var offset: nat
    var error: Option<ErrorCode>

    ghost predicate Valid()
      reads this
    {
      offset <= |buffer| && 0 < maxPayload <= MAX_FRAME_PAYLOAD
    }

    // The bytes not yet handed out in a frame.
    function Pending(): seq<byte>
      requires offset <= |buffer|
      reads this
    {
      buffer[offset..]
    }

    constructor (wanted: nat)
      ensures Valid() && Pending() == [] && error == None
      ensures maxPayload == if wanted == 0 || wanted > MAX_FRAME_PAYLOAD then MAX_FRAME_PAYLOAD else wanted
    {
      maxPayload := if wanted == 0 || wanted > MAX_FRAME_PAYLOAD then MAX_FRAME_PAYLOAD else wanted;
      buffer, offset, error := [], 0, None;
    }

    // Appends received bytes, refusing to hold more than one maximal frame and one
    // socket read.
    method Push(data: seq<byte>) returns (status: Option<ErrorCode>)
      requires Valid()
      modifies this
      ensures Valid() && status == error
      ensures old(error).Some? ==> error == old(error) && Pending() == old(Pending())
      ensures old(error).None? && data == [] ==> error.None?
      ensures old(error).None? && data != [] && |old(Pending())| + |data| > U64_MAX ==> error == Some(Overflow)
      ensures old(error).None? && data != [] && |old(Pending())| + |data| <= U64_MAX ==>
        (error == Some(CapacityExceeded) <==>
           |old(Pending())| + |data| > maxPayload + HEADER_SIZE + TRAILER_SIZE + SOCKET_READ_CHUNK)
        && (error.Some? ==> error == Some(CapacityExceeded))
      ensures error.None? ==> Pending() == old(Pending()) + data
    {
      if error.Some? { return error; }
      if data == [] { return None; }
      if offset == |buffer| {
        buffer, offset := [], 0;
      } else if offset > 0 {
        buffer, offset := buffer[offset..], 0;
      }
      var total := CheckedAdd(|buffer|, |data|);
      if total.None? {
        error := Some(Overflow);
        return error;
      }
      if total.value > maxPayload + HEADER_SIZE + TRAILER_SIZE + SOCKET_READ_CHUNK {
        error := Some(CapacityExceeded);
        return error;
      }
      buffer := buffer + data;
      status := None;
    }

    // The next complete frame, NotFound while bytes are missing, or the sticky error.
    method Next() returns (r: Result<Frame>)
      requires Valid()
      modifies this
      ensures Valid()
      ensures old(error).Some? ==> r == Err(old(error.value)) && error == old(error) && Pending() == old(Pending())
      ensures old(error).None? ==>
        match ParseOne(old(Pending()), maxPayload)
        case NeedMore => r == Err(NotFound) && error == None && Pending() == old(Pending())
        case Bad(e) => r == Err(e) && error == Some(e) && Pending() == old(Pending())
        case Got(f, n) => r == Ok(f) && error == None && Pending() == old(Pending())[n..]
    {
      hide HeaderFault, Number, Checksum;
      if error.Some? { return Err(error.value); }
      var available := |buffer| - offset;
      if available < HEADER_SIZE { return Err(NotFound); }
      var header := buffer[offset..offset + HEADER_SIZE];
      assert header == Pending()[..HEADER_SIZE];
      var fault := HeaderFault(header, maxPayload);
      if fault.Some? {
        error := fault;
        return Err(fault.value);
      }
      var length := Field(header, 12, 4);
      var total := HEADER_SIZE + length + TRAILER_SIZE;
      if available < total { return Err(NotFound); }
      var start := offset + HEADER_SIZE;
      var payload := buffer[start..start + length];
      assert payload == Pending()[HEADER_SIZE..HEADER_SIZE + length];
      assert buffer[start + length..start + length + 4] == Pending()[HEADER_SIZE + length..HEADER_SIZE + length + 4];
      if Field(buffer, start + length, 4) != Checksum(payload) {
        error := Some(IntegrityFailure);
        return Err(IntegrityFailure);
      }
      r := Ok(Frame(Field(header, 6, 2), payload));
      assert old(Pending())[total..] == buffer[offset + total..];
      offset := offset + total;
      if offset == |buffer| {
        buffer, offset := [], 0;
      }
    }

    // Takes every complete frame out of the buffer.
    method Drain() returns (frames: seq<Frame>)
      requires Valid() && error.None?
      modifies this
      ensures Valid()
      ensures var parsed := ParseAll(old(Pending()), maxPayload);
        frames == parsed.frames && error == parsed.error && (error.None? ==> Pending() == parsed.rest)
    {
      hide ParseOne;
      frames := [];
      while true
        invariant Valid() && error.None?
        invariant var all, left := ParseAll(old(Pending()), maxPayload), ParseAll(Pending(), maxPayload);
          all.frames == frames + left.frames && all.error == left.error && all.rest == left.rest
        decreases |Pending()|
      {
        ghost var step := ParseOne(Pending(), maxPayload);
        var r := Next();
        if r.Err? {
          assert frames + [] == frames;
          return;
        }
        ghost var left := ParseAll(Pending(), maxPayload);
        assert frames + ([r.value] + left.frames) == (frames + [r.value]) + left.frames;
        frames := frames + [r.value];
      }
    }
  }

  // --------------------------------------------------------------------------
  // Any chunking
  // --------------------------------------------------------------------------

  function Concat(chunks: seq<seq<byte>>): seq<byte> {
    if chunks == [] then [] else Concat(chunks[..|chunks| - 1]) + chunks[|chunks| - 1]
  }

  // Drives a decoder over a stream, draining it after every socket read: the frames
  // and the error are those of the whole stream, and the buffer bound never fires.
  method DecodeStream(chunks: seq<seq<byte>>, wanted: nat) returns (frames: seq<Frame>, error: Option<ErrorCode>)
    requires forall i | 0 <= i < |chunks| :: |chunks[i]| <= SOCKET_READ_CHUNK
    ensures var maxPayload := if wanted == 0 || wanted > MAX_FRAME_PAYLOAD then MAX_FRAME_PAYLOAD else wanted;
      frames == ParseAll(Concat(chunks), maxPayload).frames && error == ParseAll(Concat(chunks), maxPayload).error
  {
    hide ParseOne, ParseAll;
    var reader := new FrameReader(wanted);
    frames := [];
    ghost var m := reader.maxPayload;
    NothingParsed(m);
    for i := 0 to |chunks|
      invariant reader.Valid() && fresh(reader) && reader.maxPayload == m
      invariant frames == ParseAll(Concat(chunks[..i]), m).frames
      invariant reader.error == ParseAll(Concat(chunks[..i]), m).error
      invariant reader.error.None? ==> reader.Pending() == ParseAll(Concat(chunks[..i]), m).rest
    {
      assert chunks[..i + 1][..i] == chunks[..i];
      ParseAllSplits(Concat(chunks[..i]), chunks[i], m);
      if reader.error.Some? { continue; }
      RestWaits(Concat(chunks[..i]), m);
      NeedMoreIsShort(reader.Pending(), m);
      var status := reader.Push(chunks[i]);
      var more := reader.Drain();
      frames := frames + more;
    }
    assert chunks[..|chunks|] == chunks;
    error := reader.error;
  }

  lemma {:induction false} NothingParsed(maxPayload: nat)
    ensures ParseAll([], maxPayload) == Parsed([], None, [])
  {
  }

  // --------------------------------------------------------------------------
  // Encoding
  // --------------------------------------------------------------------------

  function Covered(t: nat, length: nat): (r: seq<byte>)
    ensures |r| == COVERED
  {
    MAGIC + Little(WIRE_VERSION, 2) + Little(t, 2) + Little(0, 2) + Little(0, 2) + Little(length, 4)
  }

  function EncodeFrame(t: nat, payload: seq<byte>, flags: nat, maxPayload: nat): Result<seq<byte>> {
    if !KnownType(t) then Err(InvalidEnum)
    else if |payload| > maxPayload then Err(CapacityExceeded)
    else if flags != 0 then Err(InvalidArgument)
    else
      var covered := Covered(t, |payload|);
      Ok(covered + Little(Checksum(covered), 4) + payload + Little(Checksum(payload), 4))
  }

  function HeaderFor(t: nat, length: nat): (h: seq<byte>)
    ensures |h| == HEADER_SIZE
  {
    Covered(t, length) + Little(Checksum(Covered(t, length)), 4)
  }

  lemma {:induction false} HeaderSlices(t: nat, length: nat)
    ensures var h := HeaderFor(t, length);
      && h[..4] == MAGIC && h[4..6] == Little(WIRE_VERSION, 2) && h[6..8] == Little(t, 2)
      && h[8..10] == Little(0, 2) && h[10..12] == Little(0, 2) && h[12..16] == Little(length, 4)
      && h[..COVERED] == Covered(t, length) && h[COVERED..HEADER_SIZE] == Little(Checksum(Covered(t, length)), 4)
  {
    hide Little, Checksum;
  }

  lemma {:induction false} HeaderAccepted(t: nat, length: nat, maxPayload: nat)
    requires KnownType(t) && length <= maxPayload <= MAX_FRAME_PAYLOAD
    ensures var h := HeaderFor(t, length);
      HeaderFault(h, maxPayload).None? && Field(h, 6, 2) == t && Field(h, 12, 4) == length
  {
    hide Little, Checksum, HeaderFor, Number;
    HeaderSlices(t, length);
    Sizes();
    NumberOfLittle(WIRE_VERSION, 2);
    NumberOfLittle(t, 2);
    NumberOfLittle(0, 2);
    NumberOfLittle(length, 4);
    NumberOfLittle(Checksum(Covered(t, length)), 4);
  }

  lemma {:induction false} EncodedParts(t: nat, payload: seq<byte>, maxPayload: nat)
    requires KnownType(t) && |payload| <= maxPayload
    ensures EncodeFrame(t, payload, 0, maxPayload) ==
      Ok(HeaderFor(t, |payload|) + payload + Little(Checksum(payload), 4))
  {
    hide Little, Checksum, Covered;
  }

  // Decoding an encoded frame, whatever follows it, gives the frame back and leaves
  // exactly what follows.
  lemma {:induction false} FrameRoundTrip(t: nat, payload: seq<byte>, rest: seq<byte>, maxPayload: nat)
    requires KnownType(t) && |payload| <= maxPayload <= MAX_FRAME_PAYLOAD
    ensures EncodeFrame(t, payload, 0, maxPayload).Ok?
    ensures var bs := EncodeFrame(t, payload, 0, maxPayload).value;
      ParseOne(bs + rest, maxPayload) == Got(Frame(t, payload), |bs|)
  {
    hide Little, Checksum, HeaderFor, Number, HeaderFault, EncodeFrame;
    EncodedParts(t, payload, maxPayload);
    HeaderAccepted(t, |payload|, maxPayload);
    var h, crc := HeaderFor(t, |payload|), Little(Checksum(payload), 4);
    var bs := h + payload + crc;
    var stop := HEADER_SIZE + |payload|;
    assert (bs + rest)[..HEADER_SIZE] == h;
    assert (bs + rest)[HEADER_SIZE..stop] == payload;
    assert (bs + rest)[stop..stop + 4] == crc;
    Sizes();
    NumberOfLittle(Checksum(payload), 4);
  }

  // A frame cut short is never decoded, only waited for.
  lemma {:induction false} CutFrameWaits(t: nat, payload: seq<byte>, k: nat, maxPayload: nat)
    requires KnownType(t) && |payload| <= maxPayload <= MAX_FRAME_PAYLOAD
    requires EncodeFrame(t, payload, 0, maxPayload).Ok? && k < |EncodeFrame(t, payload, 0, maxPayload).value|
    ensures ParseOne(EncodeFrame(t, payload, 0, maxPayload).value[..k], maxPayload).NeedMore?
  {
    hide Little, Checksum, HeaderFor, Number, HeaderFault, EncodeFrame;
    EncodedParts(t, payload, maxPayload);
    HeaderAccepted(t, |payload|, maxPayload);
    var h := HeaderFor(t, |payload|);
    var bs := h + payload + Little(Checksum(payload), 4);
    if k >= HEADER_SIZE { assert bs[..k][..HEADER_SIZE] == h; }
  }

  // --------------------------------------------------------------------------
  // Corruption
  // --------------------------------------------------------------------------

  lemma {:induction false} HeaderDetects(t: nat, length: nat, h': seq<byte>, k: nat, maxPayload: nat)
    requires OneByteOff(HeaderFor(t, length), h', k)
    ensures HeaderFault(h', maxPayload).Some?
  {
    hide Little, Checksum, Number, Covered;
    var covered := Covered(t, length);
    var block', crc' := h'[..COVERED], h'[COVERED..HEADER_SIZE];
    assert h' == block' + crc';
    BlockDetects(covered, block', crc', k);
    assert Field(h', COVERED, 4) == Number(crc');
  }

  // No one-byte corruption of an encoded frame is ever returned as a frame.
  lemma {:induction false} CorruptFrameNeverDecoded(t: nat, payload: seq<byte>, bs': seq<byte>, k: nat, rest: seq<byte>,
                                                    maxPayload: nat)
    requires KnownType(t) && |payload| <= maxPayload <= MAX_FRAME_PAYLOAD && EncodeFrame(t, payload, 0, maxPayload).Ok?
    requires OneByteOff(EncodeFrame(t, payload, 0, maxPayload).value, bs', k)
    ensures ParseOne(bs' + rest, maxPayload).Bad?
  {
    hide Little, Checksum, HeaderFor, Number, HeaderFault, EncodeFrame, OneByteOff;
    EncodedParts(t, payload, maxPayload);
    HeaderAccepted(t, |payload|, maxPayload);
    var h, crc := HeaderFor(t, |payload|), Little(Checksum(payload), 4);
    var bs := h + payload + crc;
    var stop := HEADER_SIZE + |payload|;
    SameSize(bs, bs', k);
    OffWithin(bs, bs', k, 0, HEADER_SIZE);
    OffWithin(bs, bs', k, HEADER_SIZE, |bs|);
    var h' := bs'[0..HEADER_SIZE];
    assert bs[0..HEADER_SIZE] == h && (bs' + rest)[..HEADER_SIZE] == h';
    if k < HEADER_SIZE {
      HeaderDetects(t, |payload|, h', k, maxPayload);
    } else {
      var payload', crc' := bs'[HEADER_SIZE..stop], bs'[stop..|bs|];
      assert bs[HEADER_SIZE..|bs|] == payload + crc && bs'[HEADER_SIZE..|bs|] == payload' + crc';
      BlockDetects(payload, payload', crc', k - HEADER_SIZE);
      assert (bs' + rest)[HEADER_SIZE..stop] == payload' && (bs' + rest)[stop..stop + 4] == crc';
    }
  }

  // --------------------------------------------------------------------------
  // Nothing but encoded frames is decoded
  // --------------------------------------------------------------------------

  lemma {:induction false} HeaderIsEncoded(h: seq<byte>, maxPayload: nat)
    requires |h| == HEADER_SIZE && HeaderFault(h, maxPayload).None?
    ensures h == HeaderFor(Field(h, 6, 2), Field(h, 12, 4))
  {
    hide Little, Checksum, Number, KnownType;
    LittleOfNumber(h[4..6]);
    LittleOfNumber(h[6..8]);
    LittleOfNumber(h[8..10]);
    LittleOfNumber(h[10..12]);
    LittleOfNumber(h[12..16]);
    LittleOfNumber(h[COVERED..HEADER_SIZE]);
    assert h[..COVERED] == h[..4] + h[4..6] + h[6..8] + h[8..10] + h[10..12] + h[12..16];
    assert h == h[..COVERED] + h[COVERED..HEADER_SIZE];
  }

  // Whatever is returned as a frame is of a known type, within the bound, and was written
  // on the wire exactly as the encoder writes it.
  lemma {:induction false} DecodedIsEncoded(bs: seq<byte>, maxPayload: nat)
    requires ParseOne(bs, maxPayload).Got?
    ensures var Got(f, n) := ParseOne(bs, maxPayload);
      && KnownType(f.messageType) && |f.payload| <= maxPayload
      && EncodeFrame(f.messageType, f.payload, 0, maxPayload) == Ok(bs[..n])
  {
    hide Little, Checksum, HeaderFor, Number, EncodeFrame, KnownType;
    var h := bs[..HEADER_SIZE];
    HeaderIsEncoded(h, maxPayload);
    var Got(f, n) := ParseOne(bs, maxPayload);
    var stop := HEADER_SIZE + |f.payload|;
    LittleOfNumber(bs[stop..stop + 4]);
    EncodedParts(f.messageType, f.payload, maxPayload);
    assert bs[..n] == h + bs[HEADER_SIZE..stop] + bs[stop..stop + 4];
  }

  // The frames of a stream as the encoder writes them.
  function EncodeAll(frames: seq<Frame>, maxPayload: nat): seq<byte> {
    if frames == [] then []
    else
      match EncodeFrame(frames[0].messageType, frames[0].payload, 0, maxPayload)
      case Ok(bs) => bs + EncodeAll(frames[1..], maxPayload)
      case Err(_) => []
  }

  predicate Sendable(frames: seq<Frame>, maxPayload: nat) {
    forall i | 0 <= i < |frames| :: KnownType(frames[i].messageType) && |frames[i].payload| <= maxPayload
  }

  // A stream is the frames read from it, as they are written, and then what is left.
  lemma {:induction false} StreamIsItsFrames(bs: seq<byte>, maxPayload: nat)
    ensures var p := ParseAll(bs, maxPayload);
      Sendable(p.frames, maxPayload) && bs == EncodeAll(p.frames, maxPayload) + p.rest
    decreases |bs|
  {
    hide ParseOne, EncodeFrame, KnownType, ParseAll;
    ParseAllUnfold(bs, maxPayload);
    var step := ParseOne(bs, maxPayload);
    if step.Got? {
      DecodedIsEncoded(bs, maxPayload);
      StreamIsItsFrames(bs[step.size..], maxPayload);
      var p, rest := ParseAll(bs, maxPayload), ParseAll(bs[step.size..], maxPayload);
      assert p.frames[1..] == rest.frames;
      var head := bs[..step.size];
      assert bs == head + bs[step.size..];
      var more := EncodeAll(rest.frames, maxPayload);
      assert head + (more + p.rest) == (head + more) + p.rest;
    }
  }

  // And frames written one after the other are read back, whatever follows them.
  lemma {:induction false} StreamRoundTrip(frames: seq<Frame>, rest: seq<byte>, maxPayload: nat)
    requires Sendable(frames, maxPayload) && maxPayload <= MAX_FRAME_PAYLOAD
    ensures ParseAll(EncodeAll(frames, maxPayload) + rest, maxPayload) == Before(frames, ParseAll(rest, maxPayload))
    decreases |frames|
  {
    hide ParseOne, EncodeFrame, KnownType, ParseAll;
    if frames == [] {
      assert EncodeAll(frames, maxPayload) + rest == rest;
      BeforeTwice([], [], ParseAll(rest, maxPayload));
    } else {
      var f, tail := frames[0], EncodeAll(frames[1..], maxPayload) + rest;
      FrameRoundTrip(f.messageType, f.payload, tail, maxPayload);
      var head := EncodeFrame(f.messageType, f.payload, 0, maxPayload).value;
      assert EncodeAll(frames, maxPayload) + rest == head + tail;
      ParseAllUnfold(head + tail, maxPayload);
      assert (head + tail)[|head|..] == tail;
      StreamRoundTrip(frames[1..], rest, maxPayload);
      BeforeTwice([f], frames[1..], ParseAll(rest, maxPayload));
      assert [f] + frames[1..] == frames;
    }
  }

  // What is refused could not have become a frame, whatever had followed.
  lemma {:induction false} RefusedIsNoFrame(bs: seq<byte>, more: seq<byte>, t: nat, payload: seq<byte>,
                                            rest: seq<byte>, maxPayload: nat)
    requires ParseOne(bs, maxPayload).Bad? && KnownType(t) && |payload| <= maxPayload <= MAX_FRAME_PAYLOAD
    requires EncodeFrame(t, payload, 0, maxPayload).Ok?
    ensures bs + more != EncodeFrame(t, payload, 0, maxPayload).value + rest
  {
    hide ParseOne, EncodeFrame, KnownType;
    ParseOneExtends(bs, more, maxPayload);
    FrameRoundTrip(t, payload, rest, maxPayload);
  }

  // --------------------------------------------------------------------------
  // Why a frame is refused
  // --------------------------------------------------------------------------

  // A header of any fields, correctly summed.
  function SummedHeader(version: nat, t: nat, flags: nat, reserved: nat, length: nat): (h: seq<byte>)
    ensures |h| == HEADER_SIZE
  {
    var covered := MAGIC + Little(version, 2) + Little(t, 2) + Little(flags, 2) + Little(reserved, 2)
                   + Little(length, 4);
    covered + Little(Checksum(covered), 4)
  }

  lemma {:induction false} SummedSlices(version: nat, t: nat, flags: nat, reserved: nat, length: nat)
    ensures var h := SummedHeader(version, t, flags, reserved, length);
      && h[..4] == MAGIC && h[4..6] == Little(version, 2) && h[6..8] == Little(t, 2) && h[8..10] == Little(flags, 2)
      && h[10..12] == Little(reserved, 2) && h[12..16] == Little(length, 4)
      && h[COVERED..HEADER_SIZE] == Little(Checksum(h[..COVERED]), 4)
  {
    hide Little, Checksum;
    var covered := MAGIC + Little(version, 2) + Little(t, 2) + Little(flags, 2) + Little(reserved, 2)
                   + Little(length, 4);
    assert SummedHeader(version, t, flags, reserved, length)[..COVERED] == covered;
  }

  // A correctly summed header is refused by its first field that is wrong: version, type,
  // flags, reserved field, length.
  lemma {:induction false} RefusalsInOrder(version: nat, t: nat, flags: nat, reserved: nat, length: nat,
                                           tail: seq<byte>, maxPayload: nat)
    requires version <= U16_MAX && t <= U16_MAX && flags <= U16_MAX && reserved <= U16_MAX && length <= U32_MAX
    requires maxPayload <= MAX_FRAME_PAYLOAD
    ensures var step := ParseOne(SummedHeader(version, t, flags, reserved, length) + tail, maxPayload);
      && (version != WIRE_VERSION ==> step == Bad(VersionUnsupported))
      && (version == WIRE_VERSION && !KnownType(t) ==> step == Bad(InvalidEnum))
      && (version == WIRE_VERSION && KnownType(t) ==>
            (&& (flags != 0 ==> step == Bad(Invalid))
             && (flags == 0 && reserved != 0 ==> step == Bad(Corrupt))
             && (flags == 0 && reserved == 0 && length > maxPayload ==> step == Bad(CapacityExceeded))
             && (flags == 0 && reserved == 0 && length <= maxPayload && |tail| < length + TRAILER_SIZE ==>
                   step == NeedMore)))
  {
    hide Little, Checksum, SummedHeader, Number, KnownType;
    var h := SummedHeader(version, t, flags, reserved, length);
    SummedSlices(version, t, flags, reserved, length);
    Sizes();
    NumberOfLittle(version, 2);
    NumberOfLittle(t, 2);
    NumberOfLittle(flags, 2);
    NumberOfLittle(reserved, 2);
    NumberOfLittle(length, 4);
    NumberOfLittle(Checksum(h[..COVERED]), 4);
    assert (h + tail)[..HEADER_SIZE] == h;
  }

  // The thirteen requests, each followed by its acknowledgement.
  const MESSAGE_TYPES: set<nat> :=
    {1, 2, 10, 11, 20, 21, 30, 31, 40, 41, 50, 51, 60, 61, 70, 71, 80, 81, 90, 91, 100, 101, 110, 111, 120, 121}

  lemma {:induction false} KnownTypesAre(t: nat)
    ensures KnownType(t) <==> t in MESSAGE_TYPES
  {
  }
}
