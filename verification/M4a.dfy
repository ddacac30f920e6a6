/**
 The box walk of ParseM4A as functions on the bytes a reader has left, the
 printers of a well-formed stream, and print-then-parse.
 */
module M4a {
  import opened Bytes
  import opened Duration
  import opened Wrappers

  const HeaderSize := 8
  const LargeSizeFieldSize := 8
  const ExtendsToEof := -1

  // Go's make panics on a negative length and on one beyond the address space
  // of a 64-bit process.
  const MaxMake := 0x1_0000_0000_0000

  const Ftyp: seq<byte> := [0x66, 0x74, 0x79, 0x70]
  const Moov: seq<byte> := [0x6d, 0x6f, 0x6f, 0x76]
  const Mvhd: seq<byte> := [0x6d, 0x76, 0x68, 0x64]

  datatype HeaderResult =
    | NoHeader                                              // io.EOF or io.ErrUnexpectedEOF
    | BadHeader
    | Header(boxType: seq<byte>, payloadLen: int, used: nat)

  /** readM4ABoxHeader on the bytes s that are left. payloadLen is an int64:
      a largesize of 2^63 or more comes out negative, or wraps around. */
  function ReadBoxHeader(s: seq<byte>): (r: HeaderResult)
    ensures r.Header? ==> 8 <= r.used <= |s| && |r.boxType| == 4 && -TwoTo63 <= r.payloadLen < TwoTo63
  {
    if |s| < HeaderSize then NoHeader
    else
      var size := Uint32(s[..4]);
      var boxType := s[4..8];
      if size == 0 then Header(boxType, ExtendsToEof, HeaderSize)
      else if size == 1 then
        if |s| < HeaderSize + LargeSizeFieldSize then BadHeader
        else
          var largeSize := Uint64(s[8..16]);
          if largeSize < HeaderSize + LargeSizeFieldSize then BadHeader
          else Header(boxType, ToInt64(ToInt64(largeSize) - HeaderSize - LargeSizeFieldSize),
                      HeaderSize + LargeSizeFieldSize)
      else if size < HeaderSize then BadHeader
      else Uint32Bound(s[..4]); Header(boxType, size - HeaderSize, HeaderSize)
  }

  /** Over all 2^64 large sizes, the sentinel comes from size 0 only. */
  lemma SentinelOnlyFromSizeZero(s: seq<byte>)
    requires ReadBoxHeader(s).Header?
    ensures ReadBoxHeader(s).payloadLen == ExtendsToEof <==> Uint32(s[..4]) == 0
  {
  }

  datatype SkipResult = Skipped(rest: seq<byte>) | SkipFailed

  /** skipM4ABoxPayload: io.CopyN of a negative count copies nothing and
      reports no error. */
  function SkipPayload(s: seq<byte>, len: int): (r: SkipResult)
    ensures r.Skipped? ==> |r.rest| <= |s|
  {
    if len == ExtendsToEof then Skipped([])
    else if len < 0 then Skipped(s)
    else if len <= |s| then Skipped(s[len..])
    else SkipFailed
  }

  /** parseM4AMvhdPayload */
  function ParseMvhd(payload: seq<byte>): DurationResult {
    if |payload| < 1 then Failed
    else if payload[0] == 0 then
      if |payload| < 20 then Failed
      else FromTimescale(Uint32(payload[12..16]), Uint32(payload[16..20]), TwoTo32 - 1)
    else if payload[0] == 1 then
      if |payload| < 32 then Failed
      else FromTimescale(Uint32(payload[20..24]), Uint64(payload[24..32]), TwoTo64 - 1)
    else Failed
  }

  function FromTimescale(timescale: nat, duration: nat, unknown: nat): DurationResult {
    if timescale == 0 || duration == unknown then Failed else Got(GoDuration(duration, timescale))
  }

  /** findM4AMvhdInMoov on the bytes its (limited) reader has left. A
      payload buffer is made at its declared length. */
  function FindMvhd(s: seq<byte>): DurationResult
    decreases |s|
  {
    match ReadBoxHeader(s)
    case NoHeader => NotFound
    case BadHeader => Failed
    case Header(boxType, len, used) =>
      if boxType != Mvhd then
        match SkipPayload(s[used..], len) {
          case Skipped(rest) => FindMvhd(rest)
          case SkipFailed => Failed
        }
      else TakeMvhd(s[used..], len)
  }

  /** The mvhd payload of declared length len, at the front of s. */
  function TakeMvhd(s: seq<byte>, len: int): DurationResult {
    if len == ExtendsToEof then Failed
    else if len < 0 || len > MaxMake then Panics
    else if len > |s| then Failed
    else ParseMvhd(s[..len])
  }

  /** An mvhd payload that is there in full. */
  function WholeMvhd(payload: seq<byte>): DurationResult {
    if |payload| > MaxMake then Panics else ParseMvhd(payload)
  }

  /** The bytes io.LimitReader(cr, moovLen) gives, or all of them for a moov
      that extends to the end. */
  function MoovBytes(s: seq<byte>, moovLen: int): seq<byte> {
    if moovLen == ExtendsToEof then s
    else if moovLen < 0 then []
    else if moovLen <= |s| then s[..moovLen]
    else s
  }

  /** findM4AMvhdDuration */
  function FindDuration(s: seq<byte>): DurationResult
    decreases |s|
  {
    match ReadBoxHeader(s)
    case NoHeader => Failed
    case BadHeader => Failed
    case Header(boxType, len, used) =>
      if boxType != Moov then
        match SkipPayload(s[used..], len) {
          case Skipped(rest) => FindDuration(rest)
          case SkipFailed => Failed
        }
      else if FindMvhd(MoovBytes(s[used..], len)) == NotFound then Failed
      else FindMvhd(MoovBytes(s[used..], len))
  }

  /** What follows the leading ftyp box. */
  function AfterFtyp(s: seq<byte>): Option<seq<byte>> {
    match ReadBoxHeader(s)
    case Header(boxType, len, used) =>
      if boxType != Ftyp then None
      else
        match SkipPayload(s[used..], len) {
          case Skipped(rest) => Some(rest)
          case SkipFailed => None
        }
    case _ => None
  }

  /** ParseM4A; on success the rest of the stream is drained and counted. */
  function Parse(s: seq<byte>): ParseResult {
    match AfterFtyp(s)
    case None => ParseFailed
    case Some(rest) => Outcome(FindDuration(rest), |s|)
  }

  /** Where the reader of a moov's payload stops, at offset n of data. */
  function MoovLimit(data: seq<byte>, n: nat, moovLen: int): (limit: nat)
    requires n <= |data|
    ensures n <= limit <= |data| && data[n..limit] == MoovBytes(data[n..], moovLen)
  {
    if moovLen == ExtendsToEof then |data|
    else if moovLen < 0 then n
    else if moovLen <= |data| - n then n + moovLen
    else |data|
  }

  // ---- Printers -----------------------------------------------------------------

  datatype Form = Compact | Large

  datatype Box = Box(boxType: seq<byte>, payload: seq<byte>, form: Form)

  predicate Fits(b: Box) {
    && |b.boxType| == 4
    && if b.form == Compact then HeaderSize + |b.payload| < TwoTo32
        else HeaderSize + LargeSizeFieldSize + |b.payload| < TwoTo63
  }

  function PrintHeader(b: Box): (s: seq<byte>)
    requires Fits(b)
    ensures |s| == if b.form == Compact then 8 else 16
  {
    if b.form == Compact then PutUint32(HeaderSize + |b.payload|) + b.boxType
    else PutUint32(1) + b.boxType + PutUint64(HeaderSize + LargeSizeFieldSize + |b.payload|)
  }

  function PrintBox(b: Box): seq<byte>
    requires Fits(b)
  {
    PrintHeader(b) + b.payload
  }

  function PrintBoxes(bs: seq<Box>): seq<byte>
    requires forall b :: b in bs ==> Fits(b)
  {
    if bs == [] then [] else PrintBox(bs[0]) + PrintBoxes(bs[1..])
  }

  /** A moov box that declares size 0 and extends to the end of the stream. */
  function PrintOpenMoov(payload: seq<byte>): seq<byte> {
    PutUint32(0) + Moov + payload
  }

  /** version 0: flags, two 32-bit times, timescale, duration, and the fields
      the parser does not read. */
  function PrintMvhd0(flags: seq<byte>, times: seq<byte>, timescale: nat, duration: nat, trailing: seq<byte>): seq<byte>
    requires |flags| == 3 && |times| == 8 && timescale < TwoTo32 && duration < TwoTo32
  {
    [0] + flags + times + PutUint32(timescale) + PutUint32(duration) + trailing
  }

  /** version 1: the times and the duration have 64 bits. */
  function PrintMvhd1(flags: seq<byte>, times: seq<byte>, timescale: nat, duration: nat, trailing: seq<byte>): seq<byte>
    requires |flags| == 3 && |times| == 16 && timescale < TwoTo32 && duration < TwoTo64
  {
    [1] + flags + times + PutUint32(timescale) + PutUint64(duration) + trailing
  }

  // ---- Print, then parse ----------------------------------------------------------

  lemma ReadPrintedHeader(b: Box, more: seq<byte>)
    requires Fits(b)
    ensures ReadBoxHeader(PrintHeader(b) + more) == Header(b.boxType, |b.payload|, |PrintHeader(b)|)
  {
    if b.form == Compact { ReadCompactHeader(b, more); } else { ReadLargeHeader(b, more); }
  }

  lemma ReadCompactHeader(b: Box, more: seq<byte>)
    requires Fits(b) && b.form == Compact
    ensures ReadBoxHeader(PrintHeader(b) + more) == Header(b.boxType, |b.payload|, |PrintHeader(b)|)
  {
  }

  lemma ReadLargeHeader(b: Box, more: seq<byte>)
    requires Fits(b) && b.form == Large
    ensures ReadBoxHeader(PrintHeader(b) + more) == Header(b.boxType, |b.payload|, |PrintHeader(b)|)
  {
    var s := PrintHeader(b) + more;
    assert s[4..8] == b.boxType && s[..4] == PutUint32(1);
    assert s[8..16] == PutUint64(HeaderSize + LargeSizeFieldSize + |b.payload|);
    DecodeLargeSize(s, |b.payload|);
  }

  /** Below 2^63 the two subtractions of a large size do not wrap. */
  lemma DecodeLargeSize(s: seq<byte>, payloadLen: nat)
    requires |s| >= 16 && Uint32(s[..4]) == 1
             && Uint64(s[8..16]) == HeaderSize + LargeSizeFieldSize + payloadLen < TwoTo63
    ensures ReadBoxHeader(s) == Header(s[4..8], payloadLen, HeaderSize + LargeSizeFieldSize)
  {
  }

  /** A printed box in front of `more`: the header is read, the payload skipped. */
  lemma SkipPrintedBox(b: Box, more: seq<byte>)
    requires Fits(b)
    ensures var s := PrintBox(b) + more;
            && ReadBoxHeader(s) == Header(b.boxType, |b.payload|, |PrintHeader(b)|)
            && s[|PrintHeader(b)|..] == b.payload + more
            && SkipPayload(b.payload + more, |b.payload|) == Skipped(more)
  {
    PrintedBoxParts(PrintHeader(b), b.payload, more);
    ReadPrintedHeader(b, b.payload + more);
    SkipWhole(b.payload, more);
  }

  lemma PrintedBoxParts(header: seq<byte>, payload: seq<byte>, more: seq<byte>)
    ensures (header + payload) + more == header + (payload + more)
    ensures ((header + payload) + more)[|header|..] == payload + more
  {
  }

  lemma SkipWhole(payload: seq<byte>, more: seq<byte>)
    ensures SkipPayload(payload + more, |payload|) == Skipped(more)
  {
    assert (payload + more)[|payload|..] == more;
  }

  lemma {:induction false} SkipChildren(bs: seq<Box>, more: seq<byte>)
    requires forall b :: b in bs ==> Fits(b) && b.boxType != Mvhd
    ensures FindMvhd(PrintBoxes(bs) + more) == FindMvhd(more)
  {
    if bs == [] {
      assert PrintBoxes(bs) + more == more;
    } else {
      var rest := PrintBoxes(bs[1..]) + more;
      assert PrintBoxes(bs) + more == PrintBox(bs[0]) + rest;
      SkipPrintedBox(bs[0], rest);
      SkipChildren(bs[1..], more);
    }
  }

  lemma {:induction false} SkipTopLevel(bs: seq<Box>, more: seq<byte>)
    requires forall b :: b in bs ==> Fits(b) && b.boxType != Moov
    ensures FindDuration(PrintBoxes(bs) + more) == FindDuration(more)
  {
    if bs == [] {
      assert PrintBoxes(bs) + more == more;
    } else {
      var rest := PrintBoxes(bs[1..]) + more;
      assert PrintBoxes(bs) + more == PrintBox(bs[0]) + rest;
      SkipPrintedBox(bs[0], rest);
      SkipTopLevel(bs[1..], more);
    }
  }

  /** The children of a moov: other boxes, the first mvhd, then anything. */
  function MoovPayload(children: seq<Box>, mvhd: Box, rest: seq<byte>): seq<byte>
    requires (forall b :: b in children ==> Fits(b)) && Fits(mvhd)
  {
    PrintBoxes(children) + (PrintBox(mvhd) + rest)
  }

  lemma FindPrintedMvhd(children: seq<Box>, mvhd: Box, rest: seq<byte>)
    requires forall b :: b in children ==> Fits(b) && b.boxType != Mvhd
    requires Fits(mvhd) && mvhd.boxType == Mvhd
    ensures FindMvhd(MoovPayload(children, mvhd, rest)) == WholeMvhd(mvhd.payload)
  {
    SkipChildren(children, PrintBox(mvhd) + rest);
    SkipPrintedBox(mvhd, rest);
    assert (mvhd.payload + rest)[..|mvhd.payload|] == mvhd.payload;
  }

  /** The boxes before the moov are skipped. */
  lemma ParseFromMoov(ftyp: Box, boxes: seq<Box>, after: seq<byte>)
    requires Fits(ftyp) && ftyp.boxType == Ftyp
    requires forall b :: b in boxes ==> Fits(b) && b.boxType != Moov
    ensures var stream := PrintBox(ftyp) + (PrintBoxes(boxes) + after);
            Parse(stream) == Outcome(FindDuration(after), |stream|)
  {
    SkipPrintedBox(ftyp, PrintBoxes(boxes) + after);
    SkipTopLevel(boxes, after);
  }

  /** What a printed moov holds decides the parse, whatever precedes and follows. */
  lemma ParseMoov(ftyp: Box, boxes: seq<Box>, moov: Box, tail: seq<byte>)
    requires Fits(ftyp) && ftyp.boxType == Ftyp && Fits(moov) && moov.boxType == Moov
    requires forall b :: b in boxes ==> Fits(b) && b.boxType != Moov
    ensures var stream := PrintBox(ftyp) + (PrintBoxes(boxes) + (PrintBox(moov) + tail));
            var found := FindMvhd(moov.payload);
            Parse(stream) == Outcome(if found == NotFound then Failed else found, |stream|)
  {
    ParseFromMoov(ftyp, boxes, PrintBox(moov) + tail);
    SkipPrintedBox(moov, tail);
    assert MoovBytes(moov.payload + tail, |moov.payload|) == moov.payload;
  }

  /** Main result: ftyp, boxes other than moov, a moov whose first mvhd child
      is mvhd, any tail; every box in compact or 64-bit form. */
  lemma PrintParse(ftyp: Box, boxes: seq<Box>, children: seq<Box>, mvhd: Box, rest: seq<byte>, moovForm: Form,
                   tail: seq<byte>)
    requires Fits(ftyp) && ftyp.boxType == Ftyp
    requires forall b :: b in boxes ==> Fits(b) && b.boxType != Moov
    requires forall b :: b in children ==> Fits(b) && b.boxType != Mvhd
    requires Fits(mvhd) && mvhd.boxType == Mvhd
    requires Fits(Box(Moov, MoovPayload(children, mvhd, rest), moovForm))
    ensures var moov := Box(Moov, MoovPayload(children, mvhd, rest), moovForm);
            var stream := PrintBox(ftyp) + (PrintBoxes(boxes) + (PrintBox(moov) + tail));
            Parse(stream) == Outcome(WholeMvhd(mvhd.payload), |stream|)
  {
    ParseMoov(ftyp, boxes, Box(Moov, MoovPayload(children, mvhd, rest), moovForm), tail);
    FindPrintedMvhd(children, mvhd, rest);
  }

  /** The same when moov is last and declares size 0. */
  lemma PrintParseOpenMoov(ftyp: Box, boxes: seq<Box>, children: seq<Box>, mvhd: Box, rest: seq<byte>)
    requires Fits(ftyp) && ftyp.boxType == Ftyp
    requires forall b :: b in boxes ==> Fits(b) && b.boxType != Moov
    requires forall b :: b in children ==> Fits(b) && b.boxType != Mvhd
    requires Fits(mvhd) && mvhd.boxType == Mvhd
    ensures var stream := PrintBox(ftyp) + (PrintBoxes(boxes) + PrintOpenMoov(MoovPayload(children, mvhd, rest)));
            Parse(stream) == Outcome(WholeMvhd(mvhd.payload), |stream|)
  {
    ParseFromMoov(ftyp, boxes, PrintOpenMoov(MoovPayload(children, mvhd, rest)));
    FindInOpenMoov(MoovPayload(children, mvhd, rest));
    FindPrintedMvhd(children, mvhd, rest);
  }

  lemma FindInOpenMoov(payload: seq<byte>)
    ensures FindDuration(PrintOpenMoov(payload)) == if FindMvhd(payload) == NotFound then Failed else FindMvhd(payload)
  {
    var after := PrintOpenMoov(payload);
    assert after[..4] == PutUint32(0) && after[4..8] == Moov && after[8..] == payload;
  }

  // ---- Large sizes ------------------------------------------------------------------

  /** The 64-bit header of a box with any declared large size. */
  function LargeHeader(boxType: seq<byte>, largeSize: nat): (h: seq<byte>)
    requires |boxType| == 4 && largeSize < TwoTo64
    ensures |h| == 16
  {
    PutUint32(1) + boxType + PutUint64(largeSize)
  }

  /** The payload length read from it: two conversions to int64. */
  function LargePayloadLen(largeSize: nat): int {
    ToInt64(ToInt64(largeSize) - HeaderSize - LargeSizeFieldSize)
  }

  /** The length is negative exactly from 2^63 + 16 on; just below, the
      subtraction wraps back to a huge positive one. */
  lemma NegativeIff(largeSize: nat)
    requires 16 <= largeSize < TwoTo64
    ensures LargePayloadLen(largeSize) < 0 <==> largeSize >= TwoTo63 + 16
    ensures largeSize < TwoTo63 + 16 ==> LargePayloadLen(largeSize) == largeSize - 16
    ensures LargePayloadLen(largeSize) != ExtendsToEof
  {
  }

  lemma ReadAnyLargeHeader(boxType: seq<byte>, largeSize: nat, more: seq<byte>)
    requires |boxType| == 4 && largeSize < TwoTo64
    ensures ReadBoxHeader(LargeHeader(boxType, largeSize) + more)
      == if largeSize < 16 then BadHeader else Header(boxType, LargePayloadLen(largeSize), 16)
  {
    var s := LargeHeader(boxType, largeSize) + more;
    assert s[..4] == PutUint32(1) && s[4..8] == boxType && s[8..16] == PutUint64(largeSize);
  }

  /** Inside a moov, a box other than mvhd is skipped as if it were empty
      exactly from 2^63 + 16 on, or when it is empty. */
  lemma NegativeBoxSkipsNothing(boxType: seq<byte>, largeSize: nat, more: seq<byte>)
    requires |boxType| == 4 && boxType != Mvhd && 16 <= largeSize < TwoTo64
    ensures var s := LargeHeader(boxType, largeSize) + more;
            && ReadBoxHeader(s).Header? && s[16..] == more
            && (SkipPayload(more, ReadBoxHeader(s).payloadLen) == Skipped(more)
                <==> largeSize == 16 || largeSize >= TwoTo63 + 16)
  {
    ReadAnyLargeHeader(boxType, largeSize, more);
    NegativeIff(largeSize);
    var s := LargeHeader(boxType, largeSize) + more;
    assert s[16..] == more;
    if 16 < largeSize < TwoTo63 + 16 && largeSize - 16 <= |more| {
      assert |more[largeSize - 16..]| < |more|;
    }
  }

  lemma MvhdHeaderPanicsIff(largeSize: nat, more: seq<byte>)
    requires largeSize < TwoTo64
    ensures FindMvhd(LargeHeader(Mvhd, largeSize) + more) == Panics <==> largeSize > MaxMake + 16
  {
    ReadAnyLargeHeader(Mvhd, largeSize, more);
    var s := LargeHeader(Mvhd, largeSize) + more;
    if largeSize >= 16 {
      NegativeIff(largeSize);
      assert s[16..] == more;
      ParseMvhdNeverPanics(more, LargePayloadLen(largeSize));
    }
  }

  lemma ParseMvhdNeverPanics(s: seq<byte>, len: int)
    ensures TakeMvhd(s, len) == Panics <==> len != ExtendsToEof && (len < 0 || len > MaxMake)
  {
  }

  /** A stream whose first mvhd declares a 64-bit size crashes the parser
      exactly when that size exceeds what make accepts, 2^63 and beyond
      included; whatever follows the header. */
  lemma MvhdPanicsIff(ftyp: Box, boxes: seq<Box>, children: seq<Box>, largeSize: nat, rest: seq<byte>, form: Form,
                      tail: seq<byte>)
    requires Fits(ftyp) && ftyp.boxType == Ftyp && largeSize < TwoTo64
    requires forall b :: b in boxes ==> Fits(b) && b.boxType != Moov
    requires forall b :: b in children ==> Fits(b) && b.boxType != Mvhd
    requires Fits(Box(Moov, PrintBoxes(children) + (LargeHeader(Mvhd, largeSize) + rest), form))
    ensures var moov := Box(Moov, PrintBoxes(children) + (LargeHeader(Mvhd, largeSize) + rest), form);
            var stream := PrintBox(ftyp) + (PrintBoxes(boxes) + (PrintBox(moov) + tail));
            Parse(stream) == ParsePanics <==> largeSize > MaxMake + 16
  {
    var moov := Box(Moov, PrintBoxes(children) + (LargeHeader(Mvhd, largeSize) + rest), form);
    ParseMoov(ftyp, boxes, moov, tail);
    SkipChildren(children, LargeHeader(Mvhd, largeSize) + rest);
    MvhdHeaderPanicsIff(largeSize, rest);
  }

  /** Version 0 durations are always exact. */
  lemma Mvhd0Exact(flags: seq<byte>, times: seq<byte>, timescale: nat, duration: nat, trailing: seq<byte>)
    requires |flags| == 3 && |times| == 8 && 0 < timescale < TwoTo32 && duration < TwoTo32 - 1
    ensures ParseMvhd(PrintMvhd0(flags, times, timescale, duration, trailing))
         == Got(duration * 1_000_000_000 / timescale)
  {
    var p := PrintMvhd0(flags, times, timescale, duration, trailing);
    assert p[12..16] == PutUint32(timescale) && p[16..20] == PutUint32(duration);
    DurationExactIff(duration, timescale);
  }

  /** Version 1 durations are exact precisely up to 9223372036 units. */
  lemma Mvhd1ExactIff(flags: seq<byte>, times: seq<byte>, timescale: nat, duration: nat, trailing: seq<byte>)
    requires |flags| == 3 && |times| == 16 && 0 < timescale < TwoTo32 && duration < TwoTo64 - 1
    ensures var r := ParseMvhd(PrintMvhd1(flags, times, timescale, duration, trailing));
            r.Got? && (r.duration == duration * 1_000_000_000 / timescale <==> duration <= 9223372036)
  {
    var p := PrintMvhd1(flags, times, timescale, duration, trailing);
    assert p[20..24] == PutUint32(timescale) && p[24..32] == PutUint64(duration);
    DurationExactIff(duration, timescale);
  }

  // ---- Refusals ---------------------------------------------------------------------

  /** A stream must begin with an ftyp box. */
  lemma OtherFirstBoxFails(b: Box, more: seq<byte>)
    requires Fits(b) && b.boxType != Ftyp
    ensures Parse(PrintBox(b) + more) == ParseFailed
  {
    SkipPrintedBox(b, more);
  }

  /** Fewer than 8 bytes, a 32-bit size below the header's own, a 64-bit size
      that is cut off or below its header's own: no box can start so. */
  predicate NoBox(s: seq<byte>) {
    || |s| < 8
    || 2 <= Uint32(s[..4]) < 8
    || (Uint32(s[..4]) == 1 && (|s| < 16 || Uint64(s[8..16]) < 16))
  }

  lemma NoBoxHasNoHeader(s: seq<byte>)
    ensures NoBox(s) <==> !ReadBoxHeader(s).Header?
  {
  }

  /** Where the top-level walk stops without a moov, the parse fails. */
  lemma NoMoovFails(ftyp: Box, boxes: seq<Box>, rest: seq<byte>)
    requires Fits(ftyp) && ftyp.boxType == Ftyp && NoBox(rest)
    requires forall b :: b in boxes ==> Fits(b) && b.boxType != Moov
    ensures Parse(PrintBox(ftyp) + (PrintBoxes(boxes) + rest)) == ParseFailed
  {
    ParseFromMoov(ftyp, boxes, rest);
    NoBoxHasNoHeader(rest);
  }

  /** The same inside the moov: no mvhd before the first thing that is no box. */
  lemma NoMvhdFails(ftyp: Box, boxes: seq<Box>, children: seq<Box>, rest: seq<byte>, form: Form, tail: seq<byte>)
    requires Fits(ftyp) && ftyp.boxType == Ftyp && NoBox(rest)
    requires forall b :: b in boxes ==> Fits(b) && b.boxType != Moov
    requires forall b :: b in children ==> Fits(b) && b.boxType != Mvhd
    requires Fits(Box(Moov, PrintBoxes(children) + rest, form))
    ensures var moov := Box(Moov, PrintBoxes(children) + rest, form);
            Parse(PrintBox(ftyp) + (PrintBoxes(boxes) + (PrintBox(moov) + tail))) == ParseFailed
  {
    ParseMoov(ftyp, boxes, Box(Moov, PrintBoxes(children) + rest, form), tail);
    SkipChildren(children, rest);
    NoBoxHasNoHeader(rest);
  }

  lemma CutBox(last: Box, payload: seq<byte>)
    requires Fits(last) && last.boxType != Moov && |payload| < |last.payload|
    ensures FindDuration(PrintHeader(last) + payload) == Failed
  {
    ReadPrintedHeader(last, payload);
    assert (PrintHeader(last) + payload)[|PrintHeader(last)|..] == payload;
  }

  /** A box other than the moov that is cut short by the end of the stream:
      nothing was found. */
  lemma CutBoxFails(ftyp: Box, boxes: seq<Box>, last: Box, payload: seq<byte>)
    requires Fits(ftyp) && ftyp.boxType == Ftyp && Fits(last) && last.boxType != Moov
    requires forall b :: b in boxes ==> Fits(b) && b.boxType != Moov
    requires |payload| < |last.payload|
    ensures Parse(PrintBox(ftyp) + (PrintBoxes(boxes) + (PrintHeader(last) + payload))) == ParseFailed
  {
    ParseFromMoov(ftyp, boxes, PrintHeader(last) + payload);
    CutBox(last, payload);
  }

  /** A 32-bit mvhd is refused exactly for a zero timescale or an unknown duration. */
  lemma Mvhd0FailsIff(flags: seq<byte>, times: seq<byte>, timescale: nat, duration: nat, trailing: seq<byte>)
    requires |flags| == 3 && |times| == 8 && timescale < TwoTo32 && duration < TwoTo32
    ensures ParseMvhd(PrintMvhd0(flags, times, timescale, duration, trailing)) == Failed
       <==> timescale == 0 || duration == 0xFFFF_FFFF
  {
    var p := PrintMvhd0(flags, times, timescale, duration, trailing);
    assert p[12..16] == PutUint32(timescale) && p[16..20] == PutUint32(duration);
  }

  /** And a 64-bit one, with the 64-bit unknown duration. */
  lemma Mvhd1FailsIff(flags: seq<byte>, times: seq<byte>, timescale: nat, duration: nat, trailing: seq<byte>)
    requires |flags| == 3 && |times| == 16 && timescale < TwoTo32 && duration < TwoTo64
    ensures ParseMvhd(PrintMvhd1(flags, times, timescale, duration, trailing)) == Failed
       <==> timescale == 0 || duration == 0xFFFF_FFFF_FFFF_FFFF
  {
    var p := PrintMvhd1(flags, times, timescale, duration, trailing);
    assert p[20..24] == PutUint32(timescale) && p[24..32] == PutUint64(duration);
  }

  /** Neither a short payload nor another version gives a duration. */
  lemma OddMvhdFails(payload: seq<byte>)
    requires payload == [] || payload[0] > 1 || |payload| < 20 || (payload[0] == 1 && |payload| < 32)
    ensures ParseMvhd(payload) == Failed
  {
  }
}
