// Journal framing and the segment replay loop (src/store/journal.cpp and the replay
// part of src/store/state_store.cpp).
//
// A segment is its records one after the other, optionally closed by a footer. The
// main result is about a segment cut anywhere: exactly the records that are wholly
// present come back, in order.
module Journal {
  import opened Core
  import opened Bytes

  const RECORD_HEADER: nat := 28
  const RECORD_TRAILER: nat := 4
  const FOOTER_SIZE: nat := 28
  const COVERED: nat := 24
  const MAX_RECORD_PAYLOAD: nat := 0x40_0000
  const FORMAT_VERSION: nat := 1
  const RECORD_MAGIC: seq<byte> := [0x44, 0x4D, 0x46, 0x52]
  const FOOTER_MAGIC: seq<byte> := [0x44, 0x4D, 0x46, 0x45]

  // One framed record, its payload still undecoded.
  datatype Raw = Raw(kind: nat, payload: seq<byte>)

  predicate ValidRaw(r: Raw) {
    1 <= r.kind <= 21 && |r.payload| <= MAX_RECORD_PAYLOAD
  }

  // --------------------------------------------------------------------------
  // Encoding
  // --------------------------------------------------------------------------

  function RecordCovered(r: Raw, sequence: nat): (bs: seq<byte>)
    ensures |bs| == COVERED
  {
    RECORD_MAGIC + Little(FORMAT_VERSION, 4) + Little(r.kind, 2) + Little(0, 2) + Little(sequence, 8)
      + Little(|r.payload|, 4)
  }

  function RecordHead(r: Raw, sequence: nat): (bs: seq<byte>)
    ensures |bs| == RECORD_HEADER
  {
    RecordCovered(r, sequence) + Little(Checksum(RecordCovered(r, sequence)), 4)
  }

  function EncodeRecord(r: Raw, sequence: nat): (bs: seq<byte>)
    ensures |bs| == RecordSize(r)
  {
    RecordHead(r, sequence) + r.payload + Little(Checksum(r.payload), 4)
  }

  function RecordSize(r: Raw): nat {
    RECORD_HEADER + |r.payload| + RECORD_TRAILER
  }

  function FooterCovered(count: nat, last: nat): (bs: seq<byte>)
    ensures |bs| == COVERED
  {
    FOOTER_MAGIC + Little(FORMAT_VERSION, 4) + Little(count, 8) + Little(last, 8)
  }

  function EncodeFooter(count: nat, last: nat): (bs: seq<byte>)
    ensures |bs| == FOOTER_SIZE
  {
    FooterCovered(count, last) + Little(Checksum(FooterCovered(count, last)), 4)
  }

  // The bytes after the file header: records numbered upwards from `next`.
  function EncodeSegment(rs: seq<Raw>, next: nat): seq<byte> {
    if rs == [] then [] else EncodeRecord(rs[0], next) + EncodeSegment(rs[1..], next + 1)
  }

  // --------------------------------------------------------------------------
  // Decoding
  // --------------------------------------------------------------------------

  function Field(bs: seq<byte>, at: nat, n: nat): nat
    requires at + n <= |bs|
  {
    Number(bs[at..at + n])
  }

  predicate Intact(h: seq<byte>)
    requires |h| == RECORD_HEADER
  {
    Field(h, COVERED, 4) == Checksum(h[..COVERED])
  }

  // decode_record_header.
  function HeaderFault(h: seq<byte>): Option<ErrorCode>
    requires |h| == RECORD_HEADER
  {
    if h[..4] != RECORD_MAGIC then Some(Corrupt)
    else if !Intact(h) then Some(IntegrityFailure)
    else if !(1 <= Field(h, 8, 2) <= 21) then Some(InvalidEnum)
    else if Field(h, 4, 4) != FORMAT_VERSION then Some(VersionUnsupported)
    else if Field(h, 20, 4) > MAX_RECORD_PAYLOAD then Some(CapacityExceeded)
    else if Field(h, 10, 2) != 0 then Some(Invalid)
    else None
  }

  // decode_journal_footer, and its agreement with what was replayed.
  function FooterFault(h: seq<byte>, count: nat, expected: nat): Option<ErrorCode>
    requires |h| == FOOTER_SIZE
  {
    if !Intact(h) then Some(IntegrityFailure)
    else if Field(h, 4, 4) != FORMAT_VERSION then Some(VersionUnsupported)
    else if Field(h, 8, 8) != count || Field(h, 16, 8) + 1 != expected then Some(Corrupt)
    else None
  }

  datatype End = Clean | Footed | Torn(bytes: nat) | Rejected(error: ErrorCode)

  datatype Scanned = Scanned(records: seq<Raw>, end: End)

  datatype Step = Stop(end: End) | Take(raw: Raw, size: nat)

  // One pass of the segment replay loop over the bytes that are left.
  function ScanStep(bs: seq<byte>, expected: nat, count: nat, haveSnapshot: bool): (r: Step)
    ensures r.Take? ==> 0 < r.size <= |bs|
  {
    if bs == [] then Stop(Clean)
    else if |bs| < RECORD_HEADER then Stop(if haveSnapshot then Rejected(Corrupt) else Torn(|bs|))
    else
      var h := bs[..RECORD_HEADER];
      if h[..4] == FOOTER_MAGIC then
        if FooterFault(h, count, expected).Some? then Stop(Rejected(FooterFault(h, count, expected).value))
        else Stop(if |bs| > FOOTER_SIZE then Rejected(TrailingGarbage) else Footed)
      else if HeaderFault(h).Some? then Stop(Rejected(HeaderFault(h).value))
      else if Field(h, 12, 8) != expected then Stop(Rejected(SequenceRegression))
      else
        var length := Field(h, 20, 4);
        var stop := RECORD_HEADER + length;
        if |bs| < stop + RECORD_TRAILER then Stop(Torn(|bs| - RECORD_HEADER))
        else if Field(bs, stop, 4) != Checksum(bs[RECORD_HEADER..stop]) then Stop(Rejected(IntegrityFailure))
        else Take(Raw(Field(h, 8, 2), bs[RECORD_HEADER..stop]), stop + RECORD_TRAILER)
  }

  function Before(records: seq<Raw>, s: Scanned): Scanned {
    s.(records := records + s.records)
  }

  // The segment replay loop.
  function Scan(bs: seq<byte>, expected: nat, count: nat, haveSnapshot: bool): Scanned
    decreases |bs|
  {
    match ScanStep(bs, expected, count, haveSnapshot)
    case Stop(end) => Scanned([], end)
    case Take(raw, n) => Before([raw], Scan(bs[n..], expected + 1, count + 1, haveSnapshot))
  }

  lemma {:induction false} BeforeTwice(a: seq<Raw>, b: seq<Raw>, s: Scanned)
    ensures Before(a, Before(b, s)) == Before(a + b, s) && Before([], s) == s
    ensures s.records == [] ==> Before(a, s) == Scanned(a, s.end)
  {
    assert a + (b + s.records) == (a + b) + s.records;
    assert [] + s.records == s.records;
    assert a + [] == a;
  }

  // One pass, reading the file at its running position.
  method ReadRecord(file: seq<byte>, consumed: nat, expected: nat, count: nat, haveSnapshot: bool) returns (step: Step)
    requires consumed <= |file|
    ensures step == ScanStep(file[consumed..], expected, count, haveSnapshot)
  {
    hide HeaderFault, FooterFault, Number, Checksum;
    ghost var left := file[consumed..];
    if consumed == |file| { return Stop(Clean); }
    var remaining := |file| - consumed;
    if remaining < RECORD_HEADER { return Stop(if haveSnapshot then Rejected(Corrupt) else Torn(remaining)); }
    var h := file[consumed..consumed + RECORD_HEADER];
    assert h == left[..RECORD_HEADER];
    if h[..4] == FOOTER_MAGIC {
      var fault := FooterFault(h, count, expected);
      if fault.Some? { return Stop(Rejected(fault.value)); }
      return Stop(if consumed + FOOTER_SIZE < |file| then Rejected(TrailingGarbage) else Footed);
    }
    var fault := HeaderFault(h);
    if fault.Some? { return Stop(Rejected(fault.value)); }
    if Field(h, 12, 8) != expected { return Stop(Rejected(SequenceRegression)); }
    var start := consumed + RECORD_HEADER;
    var length := Field(h, 20, 4);
    if start + length + RECORD_TRAILER > |file| { return Stop(Torn(|file| - start)); }
    var payload := file[start..start + length];
    assert payload == left[RECORD_HEADER..RECORD_HEADER + length];
    assert file[start + length..start + length + 4] == left[RECORD_HEADER + length..RECORD_HEADER + length + 4];
    if Field(file, start + length, 4) != Checksum(payload) { return Stop(Rejected(IntegrityFailure)); }
    step := Take(Raw(Field(h, 8, 2), payload), RECORD_HEADER + length + RECORD_TRAILER);
  }

  // The loop itself, over the file with its running position.
  method ReplaySegment(file: seq<byte>, first: nat, haveSnapshot: bool) returns (s: Scanned)
    ensures s == Scan(file, first, 0, haveSnapshot)
  {
    hide ScanStep, Before;
    var consumed, expected, count := 0, first, 0;
    var records: seq<Raw> := [];
    assert file[0..] == file;
    BeforeTwice([], [], Scan(file, first, 0, haveSnapshot));
    while true
      invariant consumed <= |file| && expected == first + count
      invariant Scan(file, first, 0, haveSnapshot) ==
        Before(records, Scan(file[consumed..], expected, count, haveSnapshot))
      decreases |file| - consumed
    {
      var step := ReadRecord(file, consumed, expected, count, haveSnapshot);
      if step.Stop? {
        BeforeTwice(records, [], Scanned([], step.end));
        return Scanned(records, step.end);
      }
      assert file[consumed..][step.size..] == file[consumed + step.size..];
      BeforeTwice(records, [step.raw], Scan(file[consumed + step.size..], expected + 1, count + 1, haveSnapshot));
      records := records + [step.raw];
      consumed, expected, count := consumed + step.size, expected + 1, count + 1;
    }
  }

  // --------------------------------------------------------------------------
  // Headers round trip
  // --------------------------------------------------------------------------

  lemma {:induction false} RecordSlices(r: Raw, sequence: nat)
    ensures var h := RecordHead(r, sequence);
      && h[..4] == RECORD_MAGIC && h[4..8] == Little(FORMAT_VERSION, 4) && h[8..10] == Little(r.kind, 2)
      && h[10..12] == Little(0, 2) && h[12..20] == Little(sequence, 8) && h[20..24] == Little(|r.payload|, 4)
      && h[..COVERED] == RecordCovered(r, sequence)
      && h[COVERED..RECORD_HEADER] == Little(Checksum(RecordCovered(r, sequence)), 4)
  {
    hide Little, Checksum;
  }

  lemma {:induction false} HeaderAccepted(r: Raw, sequence: nat)
    requires ValidRaw(r) && sequence <= U64_MAX
    ensures var h := RecordHead(r, sequence);
      && h[..4] != FOOTER_MAGIC && HeaderFault(h).None?
      && Field(h, 8, 2) == r.kind && Field(h, 12, 8) == sequence && Field(h, 20, 4) == |r.payload|
  {
    hide Little, Checksum, RecordHead, Number;
    RecordSlices(r, sequence);
    Sizes();
    NumberOfLittle(FORMAT_VERSION, 4);
    NumberOfLittle(r.kind, 2);
    NumberOfLittle(0, 2);
    NumberOfLittle(sequence, 8);
    NumberOfLittle(|r.payload|, 4);
    NumberOfLittle(Checksum(RecordCovered(r, sequence)), 4);
    assert RECORD_MAGIC[3] != FOOTER_MAGIC[3];
  }

  lemma {:induction false} FooterSlices(count: nat, last: nat)
    ensures var h := EncodeFooter(count, last);
      && h[..4] == FOOTER_MAGIC && h[4..8] == Little(FORMAT_VERSION, 4) && h[8..16] == Little(count, 8)
      && h[16..24] == Little(last, 8)
      && h[..COVERED] == FooterCovered(count, last)
      && h[COVERED..FOOTER_SIZE] == Little(Checksum(FooterCovered(count, last)), 4)
  {
    hide Little, Checksum;
    var h := EncodeFooter(count, last);
    var a, b, c := Little(FORMAT_VERSION, 4), Little(count, 8), Little(last, 8);
    assert h == FOOTER_MAGIC + a + b + c + Little(Checksum(FooterCovered(count, last)), 4);
  }

  lemma {:induction false} FooterAccepted(count: nat, last: nat)
    requires count <= U64_MAX && last <= U64_MAX
    ensures var h := EncodeFooter(count, last);
      h[..4] == FOOTER_MAGIC && FooterFault(h, count, last + 1).None?
  {
    hide Little, Checksum, EncodeFooter, Number;
    FooterSlices(count, last);
    Sizes();
    NumberOfLittle(FORMAT_VERSION, 4);
    NumberOfLittle(count, 8);
    NumberOfLittle(last, 8);
    NumberOfLittle(Checksum(FooterCovered(count, last)), 4);
  }

  // --------------------------------------------------------------------------
  // A cut segment
  // --------------------------------------------------------------------------

  // The replay loop takes one encoded record off the front.
  lemma {:induction false} ScanRecord(r: Raw, sequence: nat, more: seq<byte>, count: nat, snapshot: bool)
    requires ValidRaw(r) && sequence <= U64_MAX
    ensures var rest := Scan(more, sequence + 1, count + 1, snapshot);
      Scan(EncodeRecord(r, sequence) + more, sequence, count, snapshot) == Before([r], rest)
  {
    hide Little, Checksum, RecordHead, Number, HeaderFault, FooterFault;
    HeaderAccepted(r, sequence);
    var h, crc := RecordHead(r, sequence), Little(Checksum(r.payload), 4);
    var bs := EncodeRecord(r, sequence) + more;
    var stop := RECORD_HEADER + |r.payload|;
    assert bs[..RECORD_HEADER] == h;
    assert bs[RECORD_HEADER..stop] == r.payload;
    assert bs[stop..stop + 4] == crc;
    assert bs[stop + RECORD_TRAILER..] == more;
    Sizes();
    NumberOfLittle(Checksum(r.payload), 4);
  }

  // A record cut short is torn and contributes nothing.
  lemma {:induction false} ScanCutRecord(r: Raw, sequence: nat, k: nat, count: nat)
    requires ValidRaw(r) && sequence <= U64_MAX && 0 < k < RecordSize(r)
    ensures var s := Scan(EncodeRecord(r, sequence)[..k], sequence, count, false);
      s.records == [] && s.end.Torn?
  {
    hide Little, Checksum, RecordHead, Number, HeaderFault, FooterFault;
    HeaderAccepted(r, sequence);
    if k >= RECORD_HEADER {
      assert EncodeRecord(r, sequence)[..k][..RECORD_HEADER] == RecordHead(r, sequence);
    }
  }

  // How many records lie wholly within the first k bytes.
  function Whole(rs: seq<Raw>, k: nat): (n: nat)
    ensures n <= |rs|
  {
    if rs == [] || k < RecordSize(rs[0]) then 0 else 1 + Whole(rs[1..], k - RecordSize(rs[0]))
  }

  function SegmentSize(rs: seq<Raw>): nat {
    if rs == [] then 0 else RecordSize(rs[0]) + SegmentSize(rs[1..])
  }

  lemma {:induction false} SegmentLength(rs: seq<Raw>, next: nat)
    ensures |EncodeSegment(rs, next)| == SegmentSize(rs)
    decreases |rs|
  {
    hide EncodeRecord;
    if rs != [] { SegmentLength(rs[1..], next + 1); }
  }

  // Where the cut falls between records, or inside one.
  predicate OnBoundary(rs: seq<Raw>, k: nat) {
    k == SegmentSize(rs[..Whole(rs, k)])
  }

  lemma {:induction false} BoundaryStep(rs: seq<Raw>, k: nat)
    requires rs != [] && k >= RecordSize(rs[0])
    ensures OnBoundary(rs, k) <==> OnBoundary(rs[1..], k - RecordSize(rs[0]))
  {
    var n := Whole(rs, k);
    assert rs[..n][1..] == rs[1..][..n - 1];
  }

  // However the segment is cut, replay recovers exactly the records wholly present, in
  // order, and nothing of the one that was cut.
  lemma {:induction false} CutSegmentRecovers(rs: seq<Raw>, next: nat, k: nat, count: nat)
    requires (forall i | 0 <= i < |rs| :: ValidRaw(rs[i])) && next + |rs| <= U64_MAX
    requires k <= |EncodeSegment(rs, next)|
    ensures var s := Scan(EncodeSegment(rs, next)[..k], next, count, false);
      && s.records == rs[..Whole(rs, k)]
      && (if OnBoundary(rs, k) then s.end == Clean else s.end.Torn?)
    decreases |rs|
  {
    hide EncodeRecord, Scan;
    var bytes := EncodeSegment(rs, next);
    if k == 0 {
      NothingScanned(next, count);
    } else {
      var n := RecordSize(rs[0]);
      var head, tail := EncodeRecord(rs[0], next), EncodeSegment(rs[1..], next + 1);
      if k < n {
        assert bytes[..k] == head[..k];
        ScanCutRecord(rs[0], next, k, count);
        assert rs[..0] == [];
      } else {
        assert bytes[..k] == head + tail[..k - n];
        ScanRecord(rs[0], next, tail[..k - n], count, false);
        CutSegmentRecovers(rs[1..], next + 1, k - n, count + 1);
        BoundaryStep(rs, k);
        var m := Whole(rs[1..], k - n);
        assert [rs[0]] + rs[1..][..m] == rs[..m + 1];
      }
    }
  }

  lemma {:induction false} NothingScanned(next: nat, count: nat)
    ensures Scan([], next, count, false) == Scanned([], Clean)
  {
  }

  // A segment closed by its footer replays whole.
  lemma {:induction false} FootedSegmentRecovers(rs: seq<Raw>, next: nat, count: nat, total: nat, last: nat,
                                                 snapshot: bool)
    requires (forall i | 0 <= i < |rs| :: ValidRaw(rs[i])) && last + 1 == next + |rs| <= U64_MAX
      && total == count + |rs| <= U64_MAX
    ensures Scan(EncodeSegment(rs, next) + EncodeFooter(total, last), next, count, snapshot) == Scanned(rs, Footed)
    decreases |rs|
  {
    hide EncodeRecord, EncodeFooter, Scan, Before;
    var foot := EncodeFooter(total, last);
    if rs == [] {
      ScanFooter(next, count, snapshot);
      assert EncodeSegment(rs, next) + foot == foot;
    } else {
      var head, tail := EncodeRecord(rs[0], next), EncodeSegment(rs[1..], next + 1);
      assert EncodeSegment(rs, next) + foot == head + (tail + foot);
      ScanRecord(rs[0], next, tail + foot, count, snapshot);
      FootedSegmentRecovers(rs[1..], next + 1, count + 1, total, last, snapshot);
      assert [rs[0]] + rs[1..] == rs;
      BeforeOf([rs[0]], rs[1..], Footed);
    }
  }

  lemma {:induction false} BeforeOf(a: seq<Raw>, b: seq<Raw>, end: End)
    ensures Before(a, Scanned(b, end)) == Scanned(a + b, end)
  {
  }

  lemma {:induction false} ScanFooter(next: nat, count: nat, snapshot: bool)
    requires 0 < next <= U64_MAX && count <= U64_MAX
    ensures Scan(EncodeFooter(count, next - 1), next, count, snapshot) == Scanned([], Footed)
  {
    hide EncodeFooter, FooterFault, Number, Checksum, HeaderFault;
    FooterAccepted(count, next - 1);
    assert EncodeFooter(count, next - 1)[..RECORD_HEADER] == EncodeFooter(count, next - 1);
  }

  // --------------------------------------------------------------------------
  // A damaged segment
  // --------------------------------------------------------------------------

  lemma {:induction false} HeadDetects(covered: seq<byte>, h': seq<byte>, k: nat)
    requires |covered| == COVERED && OneByteOff(covered + Little(Checksum(covered), 4), h', k)
    ensures |h'| == RECORD_HEADER && !Intact(h')
  {
    hide Little, Checksum, Number;
    var block', crc' := h'[..COVERED], h'[COVERED..RECORD_HEADER];
    assert h' == block' + crc';
    BlockDetects(covered, block', crc', k);
    assert Field(h', COVERED, 4) == Number(crc');
  }

  // A record with one byte changed is refused, even if its magic becomes the footer's.
  lemma {:induction false} DamagedStep(r: Raw, sequence: nat, bs': seq<byte>, k: nat, tail: seq<byte>, count: nat,
                                       snapshot: bool)
    requires ValidRaw(r) && sequence <= U64_MAX && OneByteOff(EncodeRecord(r, sequence), bs', k)
    ensures var step := ScanStep(bs' + tail, sequence, count, snapshot); step.Stop? && step.end.Rejected?
  {
    hide Little, Checksum, RecordHead, Number, HeaderFault, FooterFault, OneByteOff, RecordCovered, Intact;
    HeaderAccepted(r, sequence);
    var h, crc := RecordHead(r, sequence), Little(Checksum(r.payload), 4);
    var bs := EncodeRecord(r, sequence);
    var stop := RECORD_HEADER + |r.payload|;
    SameSize(bs, bs', k);
    OffWithin(bs, bs', k, 0, RECORD_HEADER);
    OffWithin(bs, bs', k, RECORD_HEADER, |bs|);
    var h' := bs'[0..RECORD_HEADER];
    assert bs[0..RECORD_HEADER] == h && (bs' + tail)[..RECORD_HEADER] == h';
    if k < RECORD_HEADER {
      HeadIsSummed(r, sequence);
      HeadDetects(RecordCovered(r, sequence), h', k);
      BrokenHead(h', count, sequence);
    } else {
      var payload', crc' := bs'[RECORD_HEADER..stop], bs'[stop..|bs|];
      assert bs[RECORD_HEADER..|bs|] == r.payload + crc && bs'[RECORD_HEADER..|bs|] == payload' + crc';
      BlockDetects(r.payload, payload', crc', k - RECORD_HEADER);
      assert (bs' + tail)[RECORD_HEADER..stop] == payload' && (bs' + tail)[stop..stop + 4] == crc';
    }
  }

  lemma {:induction false} HeadIsSummed(r: Raw, sequence: nat)
    ensures var covered := RecordCovered(r, sequence); RecordHead(r, sequence) == covered + Little(Checksum(covered), 4)
  {
    hide RecordCovered, Little, Checksum;
  }

  lemma {:induction false} BrokenHead(h: seq<byte>, count: nat, expected: nat)
    requires |h| == RECORD_HEADER && !Intact(h)
    ensures HeaderFault(h).Some? && FooterFault(h, count, expected).Some?
  {
    hide Intact;
  }

  // Whichever one byte of a segment is changed, replay hands over the records in front of
  // the one that holds it and then refuses the segment.
  lemma {:induction false} DamagedSegmentRefused(rs: seq<Raw>, next: nat, bs': seq<byte>, k: nat, tail: seq<byte>,
                                                 count: nat, snapshot: bool)
    requires (forall i | 0 <= i < |rs| :: ValidRaw(rs[i])) && next + |rs| <= U64_MAX
    requires OneByteOff(EncodeSegment(rs, next), bs', k)
    ensures var s := Scan(bs' + tail, next, count, snapshot);
      Whole(rs, k) < |rs| && s.records == rs[..Whole(rs, k)] && s.end.Rejected?
    decreases |rs|
  {
    hide EncodeRecord, Scan, OneByteOff, ValidRaw, ScanStep;
    var bs := EncodeSegment(rs, next);
    SameSize(bs, bs', k);
    var n := RecordSize(rs[0]);
    var head, more := EncodeRecord(rs[0], next), EncodeSegment(rs[1..], next + 1);
    OffWithin(bs, bs', k, 0, n);
    OffWithin(bs, bs', k, n, |bs|);
    var head', more' := bs'[0..n], bs'[n..|bs|];
    assert bs[0..n] == head && bs[n..|bs|] == more;
    assert bs' + tail == head' + (more' + tail);
    if k < n {
      DamagedStep(rs[0], next, head', k, more' + tail, count, snapshot);
      ScanStops(head' + (more' + tail), next, count, snapshot);
      assert rs[..0] == [];
    } else {
      ScanRecord(rs[0], next, more' + tail, count, snapshot);
      DamagedSegmentRefused(rs[1..], next + 1, more', k - n, tail, count + 1, snapshot);
      var m := Whole(rs[1..], k - n);
      assert [rs[0]] + rs[1..][..m] == rs[..m + 1];
    }
  }

  lemma {:induction false} ScanStops(bs: seq<byte>, expected: nat, count: nat, snapshot: bool)
    requires ScanStep(bs, expected, count, snapshot).Stop?
    ensures Scan(bs, expected, count, snapshot) == Scanned([], ScanStep(bs, expected, count, snapshot).end)
  {
    hide ScanStep;
  }

  // So is a segment whose footer has one byte changed.
  lemma {:induction false} DamagedFooterRefused(rs: seq<Raw>, next: nat, foot': seq<byte>, k: nat, count: nat,
                                                total: nat, last: nat, tail: seq<byte>, snapshot: bool)
    requires (forall i | 0 <= i < |rs| :: ValidRaw(rs[i])) && next + |rs| <= U64_MAX
    requires OneByteOff(EncodeFooter(total, last), foot', k)
    ensures var s := Scan(EncodeSegment(rs, next) + (foot' + tail), next, count, snapshot);
      s.records == rs && s.end.Rejected?
    decreases |rs|
  {
    hide EncodeRecord, EncodeFooter, Scan, ScanStep, ValidRaw;
    if rs == [] {
      assert EncodeSegment(rs, next) + (foot' + tail) == foot' + tail;
      DamagedFooter(next, foot', k, count, total, last, tail, snapshot);
      ScanStops(foot' + tail, next, count, snapshot);
    } else {
      var more := EncodeSegment(rs[1..], next + 1) + (foot' + tail);
      assert EncodeSegment(rs, next) + (foot' + tail) == EncodeRecord(rs[0], next) + more;
      ScanRecord(rs[0], next, more, count, snapshot);
      DamagedFooterRefused(rs[1..], next + 1, foot', k, count + 1, total, last, tail, snapshot);
      assert [rs[0]] + rs[1..] == rs;
    }
  }

  lemma {:induction false} DamagedFooter(next: nat, foot': seq<byte>, k: nat, count: nat, total: nat, last: nat,
                                         tail: seq<byte>, snapshot: bool)
    requires OneByteOff(EncodeFooter(total, last), foot', k)
    ensures var step := ScanStep(foot' + tail, next, count, snapshot); step.Stop? && step.end.Rejected?
  {
    hide Little, Checksum, Number, HeaderFault, FooterFault, FooterCovered, Intact, OneByteOff;
    HeadDetects(FooterCovered(total, last), foot', k);
    BrokenHead(foot', count, next);
    assert (foot' + tail)[..RECORD_HEADER] == foot';
  }

  // --------------------------------------------------------------------------
  // Nothing but written records is replayed
  // --------------------------------------------------------------------------

  lemma {:induction false} HeaderIsWritten(h: seq<byte>, payload: seq<byte>)
    requires |h| == RECORD_HEADER && HeaderFault(h).None? && |payload| == Field(h, 20, 4)
    ensures ValidRaw(Raw(Field(h, 8, 2), payload))
    ensures h == RecordHead(Raw(Field(h, 8, 2), payload), Field(h, 12, 8))
  {
    hide Little, Checksum, Number;
    LittleOfNumber(h[4..8]);
    LittleOfNumber(h[8..10]);
    LittleOfNumber(h[10..12]);
    LittleOfNumber(h[12..20]);
    LittleOfNumber(h[20..24]);
    LittleOfNumber(h[COVERED..RECORD_HEADER]);
    assert h[..COVERED] == h[..4] + h[4..8] + h[8..10] + h[10..12] + h[12..20] + h[20..24];
    assert h == h[..COVERED] + h[COVERED..RECORD_HEADER];
  }

  // A record is taken only if it stands there as it is written, under the number expected.
  lemma {:induction false} TakenIsWritten(bs: seq<byte>, expected: nat, count: nat, snapshot: bool)
    requires ScanStep(bs, expected, count, snapshot).Take?
    ensures var Take(raw, n) := ScanStep(bs, expected, count, snapshot);
      ValidRaw(raw) && n == RecordSize(raw) && bs[..n] == EncodeRecord(raw, expected)
  {
    hide Little, Checksum, Number, RecordHead, HeaderFault, FooterFault;
    var h := bs[..RECORD_HEADER];
    var Take(raw, n) := ScanStep(bs, expected, count, snapshot);
    var stop := RECORD_HEADER + |raw.payload|;
    HeaderIsWritten(h, raw.payload);
    LittleOfNumber(bs[stop..stop + 4]);
    assert bs[..n] == h + raw.payload + bs[stop..stop + 4];
  }

  lemma {:induction false} FooterIsWritten(h: seq<byte>, count: nat, expected: nat)
    requires |h| == FOOTER_SIZE && h[..4] == FOOTER_MAGIC && FooterFault(h, count, expected).None?
    ensures expected > 0 && h == EncodeFooter(count, expected - 1)
  {
    hide Little, Checksum, Number;
    LittleOfNumber(h[4..8]);
    LittleOfNumber(h[8..16]);
    LittleOfNumber(h[16..24]);
    LittleOfNumber(h[COVERED..FOOTER_SIZE]);
    assert h[..COVERED] == h[..4] + h[4..8] + h[8..16] + h[16..24];
    assert h == h[..COVERED] + h[COVERED..FOOTER_SIZE];
  }

  // The beginning of a record under the number expected, with bytes of it missing. After a
  // snapshot not even its header may be cut.
  ghost predicate CutShort(bs: seq<byte>, expected: nat, snapshot: bool) {
    && bs != []
    && if |bs| < RECORD_HEADER then !snapshot
       else exists r: Raw :: ValidRaw(r) && bs[..RECORD_HEADER] == RecordHead(r, expected) && |bs| < RecordSize(r)
  }

  // How replay can end without refusing: nothing left, a footer that agrees, or the
  // beginning of a record.
  lemma {:induction false} EndMeans(bs: seq<byte>, expected: nat, count: nat, snapshot: bool)
    requires ScanStep(bs, expected, count, snapshot).Stop?
    ensures match ScanStep(bs, expected, count, snapshot).end
      case Clean => bs == []
      case Footed => expected > 0 && bs == EncodeFooter(count, expected - 1)
      case Torn(_) => CutShort(bs, expected, snapshot)
      case Rejected(_) => true
  {
    hide Little, Checksum, Number, RecordHead, HeaderFault, FooterFault, EncodeFooter;
    if |bs| >= RECORD_HEADER {
      var h := bs[..RECORD_HEADER];
      if h[..4] == FOOTER_MAGIC {
        if FooterFault(h, count, expected).None? { FooterIsWritten(h, count, expected); }
      } else if HeaderFault(h).None? {
        var zeros := seq(Field(h, 20, 4), _ => 0);
        HeaderIsWritten(h, zeros);
      }
    }
  }

  // Whatever replay makes of any bytes, they begin with the records it took, as written and
  // numbered upwards from the one expected, and go on as its end says.
  lemma {:induction false} ReplayedIsWritten(bs: seq<byte>, next: nat, count: nat, snapshot: bool)
    returns (rest: seq<byte>)
    ensures var s := Scan(bs, next, count, snapshot);
      && (forall i | 0 <= i < |s.records| :: ValidRaw(s.records[i]))
      && bs == EncodeSegment(s.records, next) + rest
      && (s.end == Clean ==> rest == [])
      && (s.end == Footed ==>
            next + |s.records| > 0 && rest == EncodeFooter(count + |s.records|, next + |s.records| - 1))
      && (s.end.Torn? ==> CutShort(rest, next + |s.records|, snapshot))
    decreases |bs|
  {
    hide ScanStep, EncodeRecord, EncodeFooter, ValidRaw, CutShort;
    var step := ScanStep(bs, next, count, snapshot);
    if step.Stop? {
      EndMeans(bs, next, count, snapshot);
      rest := bs;
      assert bs == [] + bs;
    } else {
      TakenIsWritten(bs, next, count, snapshot);
      rest := ReplayedIsWritten(bs[step.size..], next + 1, count + 1, snapshot);
      var all, later := Scan(bs, next, count, snapshot).records,
                        Scan(bs[step.size..], next + 1, count + 1, snapshot).records;
      assert all == [step.raw] + later && all[1..] == later;
      var head, more := EncodeRecord(step.raw, next), EncodeSegment(later, next + 1);
      assert bs == bs[..step.size] + bs[step.size..];
      assert head + (more + rest) == (head + more) + rest;
    }
  }

  // --------------------------------------------------------------------------
  // Why a record is refused
  // --------------------------------------------------------------------------

  // A record header of any fields, correctly summed.
  function SummedHead(version: nat, kind: nat, flags: nat, sequence: nat, length: nat): (h: seq<byte>)
    ensures |h| == RECORD_HEADER
  {
    var covered := RECORD_MAGIC + Little(version, 4) + Little(kind, 2) + Little(flags, 2) + Little(sequence, 8)
                   + Little(length, 4);
    covered + Little(Checksum(covered), 4)
  }

  lemma {:induction false} SummedSlices(version: nat, kind: nat, flags: nat, sequence: nat, length: nat)
    ensures var h := SummedHead(version, kind, flags, sequence, length);
      && h[..4] == RECORD_MAGIC && h[4..8] == Little(version, 4) && h[8..10] == Little(kind, 2)
      && h[10..12] == Little(flags, 2) && h[12..20] == Little(sequence, 8) && h[20..24] == Little(length, 4)
      && h[COVERED..RECORD_HEADER] == Little(Checksum(h[..COVERED]), 4)
  {
    hide Little, Checksum;
    var covered := RECORD_MAGIC + Little(version, 4) + Little(kind, 2) + Little(flags, 2) + Little(sequence, 8)
                   + Little(length, 4);
    assert SummedHead(version, kind, flags, sequence, length)[..COVERED] == covered;
  }

  // A correctly summed record header is refused by its first field that is wrong: type,
  // version, length, flags, sequence.
  lemma {:induction false} RefusalsInOrder(version: nat, kind: nat, flags: nat, sequence: nat, length: nat,
                                           tail: seq<byte>, expected: nat, count: nat, snapshot: bool)
    requires version <= U32_MAX && kind <= U16_MAX && flags <= U16_MAX && sequence <= U64_MAX && length <= U32_MAX
    ensures var step := ScanStep(SummedHead(version, kind, flags, sequence, length) + tail, expected, count, snapshot);
      && (!(1 <= kind <= 21) ==> step == Stop(Rejected(InvalidEnum)))
      && (1 <= kind <= 21 && version != FORMAT_VERSION ==> step == Stop(Rejected(VersionUnsupported)))
      && (1 <= kind <= 21 && version == FORMAT_VERSION ==>
            (&& (length > MAX_RECORD_PAYLOAD ==> step == Stop(Rejected(CapacityExceeded)))
             && (length <= MAX_RECORD_PAYLOAD && flags != 0 ==> step == Stop(Rejected(Invalid)))
             && (length <= MAX_RECORD_PAYLOAD && flags == 0 && sequence != expected ==>
                   step == Stop(Rejected(SequenceRegression)))
             && (length <= MAX_RECORD_PAYLOAD && flags == 0 && sequence == expected ==>
                   (|tail| < length + RECORD_TRAILER ==> step == Stop(Torn(|tail|))))))
  {
    hide Little, Checksum, SummedHead, Number, FooterFault;
    var h := SummedHead(version, kind, flags, sequence, length);
    SummedSlices(version, kind, flags, sequence, length);
    Sizes();
    NumberOfLittle(version, 4);
    NumberOfLittle(kind, 2);
    NumberOfLittle(flags, 2);
    NumberOfLittle(sequence, 8);
    NumberOfLittle(length, 4);
    NumberOfLittle(Checksum(h[..COVERED]), 4);
    assert RECORD_MAGIC[3] != FOOTER_MAGIC[3];
    assert (h + tail)[..RECORD_HEADER] == h;
  }
}
