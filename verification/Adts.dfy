/** ParseAAC: a walk over ADTS frames. */
module Adts {
  import opened Bytes
  import opened Duration
  import opened AudioReader

  const SampleRates: seq<nat> := [96000, 88200, 64000, 48000, 44100, 32000, 24000, 22050, 16000, 12000, 11025, 8000,
                                  7350]

  /** The table of the standard: from the fourth on, but for the last, each
      rate is half the one three places before it. */
  lemma RatesAre(i: nat)
    ensures |SampleRates| == 13
    ensures SampleRates[0] == 96000 && SampleRates[1] == 88200 && SampleRates[2] == 64000 && SampleRates[12] == 7350
    ensures 3 <= i < 12 ==> SampleRates[i] * 2 == SampleRates[i - 3]
  {
  }

  datatype FrameHeader = FrameHeader(crc: bool, rateIdx: nat, frameLen: nat, blocks: nat)

  /** The 7-byte fixed part; None when the 12-bit syncword is not all ones. */
  function ReadHeader(b: seq<byte>): (h: FrameHeader)
    requires |b| == 7
  {
    var b3, b4, b5: int := b[3], b[4], b[5];
    FrameHeader(b[1] % 2 == 0, b[2] / 4 % 16, b3 % 4 * 2048 + b4 * 8 + b5 / 32, b[6] % 4 + 1)
  }

  predicate Synced(b: seq<byte>)
    requires |b| == 7
  {
    b[0] == 0xFF && b[1] / 16 == 0xF
  }

  function HeaderLength(h: FrameHeader): nat {
    if h.crc then 9 else 7
  }

  datatype Walk = Walked(samples: int, rate: nat) | Invalid

  function Accumulate(samples: int, blocks: nat): int {
    ToInt64(samples + blocks * 1024)
  }

  /** The loop of ParseAAC on the bytes left. A stream that ends inside a frame
      ends the walk; whether the frame already counted depends on where. */
  function WalkFrames(s: seq<byte>, samples: int, rate: nat): Walk
    decreases |s|
  {
    if |s| < 7 then Walked(samples, rate)
    else if !Synced(s[..7]) then Invalid
    else
      var h := ReadHeader(s[..7]);
      if |s| < HeaderLength(h) then Walked(samples, rate)
      else if h.rateIdx >= |SampleRates| then Invalid
      else
        var samples' := Accumulate(samples, h.blocks);
        var rate' := if rate == 0 then SampleRates[h.rateIdx] else rate;
        if h.frameLen < HeaderLength(h) then Invalid
        else if h.frameLen > |s| then Walked(samples', rate')
        else WalkFrames(s[h.frameLen..], samples', rate')
  }

  function Parse(s: seq<byte>): ParseResult {
    match WalkFrames(s, 0, 0)
    case Invalid => ParseFailed
    case Walked(samples, rate) => if rate == 0 then ParseFailed else Parsed(AudioInfo(GoDuration(samples, rate), |s|))
  }

  /** The loop of ParseAAC; the stream is consumed unless it is invalid. */
  method SumFrames(cr: CountingReader) returns (r: Walk)
    requires cr.Within(|cr.data|)
    modifies cr
    ensures cr.Within(|cr.data|) && r == WalkFrames(old(cr.Left(|cr.data|)), 0, 0)
    ensures r.Walked? ==> cr.n == |cr.data|
  {
    var limit := |cr.data|;
    var totalSamples, sampleRate := 0, 0;
    while true
      invariant cr.Within(limit)
      invariant WalkFrames(cr.Left(limit), totalSamples, sampleRate) == WalkFrames(old(cr.Left(|cr.data|)), 0, 0)
      decreases limit - cr.n
    {
      ghost var s := cr.Left(limit);
      var buf, err := cr.ReadFull(7, limit);
      if err != NoError {
        break;
      }
      assert buf == s[..7];
      if !Synced(buf) {
        return Invalid;
      }
      var h := ReadHeader(buf);
      if h.crc {
        var crcBuf;
        crcBuf, err := cr.ReadFull(2, limit);
        if err != NoError {
          break;
        }
      }
      assert cr.Left(limit) == s[HeaderLength(h)..];
      if h.rateIdx >= |SampleRates| {
        return Invalid;
      }
      if sampleRate == 0 {
        sampleRate := SampleRates[h.rateIdx];
      }
      totalSamples := Accumulate(totalSamples, h.blocks);
      var skipBytes := h.frameLen - HeaderLength(h);
      if skipBytes < 0 {
        return Invalid;
      }
      if skipBytes > 0 {
        var ok := cr.Discard(skipBytes, limit);
        if !ok {
          break;
        }
      }
      assert cr.Left(limit) == s[h.frameLen..];
    }
    r := Walked(totalSamples, sampleRate);
  }

  method ParseAAC(stream: seq<byte>) returns (r: ParseResult)
    ensures r == Parse(stream)
    ensures r.Parsed? ==> r.info.sizeBytes == |stream|
  {
    var cr := new CountingReader(stream);
    assert cr.Left(|stream|) == stream;
    var walk := SumFrames(cr);
    if walk.Invalid? || walk.rate == 0 {
      return ParseFailed;
    }
    r := Parsed(AudioInfo(GoDuration(walk.samples, walk.rate), cr.n));
  }

  // ---- Printer ------------------------------------------------------------------

  /** A frame: the fields the parser reads, the bits it does not (free*), the
      CRC bytes and the raw data. */
  datatype Frame = Frame(hasCrc: bool, rateIdx: nat, blocks: nat, crcBytes: seq<byte>, body: seq<byte>,
                         free1: nat, free2hi: nat, free2lo: nat, free3: nat, free5: nat, free6: nat)

  function Size(f: Frame): nat {
    7 + |f.crcBytes| + |f.body|
  }

  predicate WellFormed(f: Frame) {
    && f.rateIdx < |SampleRates| && 1 <= f.blocks <= 4
    && |f.crcBytes| == (if f.hasCrc then 2 else 0) && Size(f) < 8192
    && f.free1 < 8 && f.free2hi < 4 && f.free2lo < 4 && f.free3 < 64 && f.free5 < 32 && f.free6 < 64
  }

  function PrintHeader(f: Frame): (b: seq<byte>)
    requires WellFormed(f)
    ensures |b| == 7
  {
    [ 0xFF,
      0xF0 + f.free1 * 2 + (if f.hasCrc then 0 else 1),
      f.free2hi * 64 + f.rateIdx * 4 + f.free2lo,
      f.free3 * 4 + Size(f) / 2048,
      Size(f) / 8 % 256,
      Size(f) % 8 * 32 + f.free5,
      f.free6 * 4 + (f.blocks - 1) ]
  }

  lemma SizeDigits(n: nat)
    requires n < 8192
    ensures n / 2048 < 4 && n == n / 2048 * 2048 + n / 8 % 256 * 8 + n % 8
  {
  }

  lemma ReadPrintedHeader(f: Frame)
    requires WellFormed(f)
    ensures Synced(PrintHeader(f)) && ReadHeader(PrintHeader(f)) == FrameHeader(f.hasCrc, f.rateIdx, Size(f), f.blocks)
  {
    SizeDigits(Size(f));
    var b := PrintHeader(f);
    assert b[2] / 4 == f.free2hi * 16 + f.rateIdx;
  }

  function PrintFrame(f: Frame): seq<byte>
    requires WellFormed(f)
  {
    PrintHeader(f) + f.crcBytes + f.body
  }

  function PrintFrames(fs: seq<Frame>): seq<byte>
    requires forall i :: 0 <= i < |fs| ==> WellFormed(fs[i])
  {
    if fs == [] then [] else PrintFrame(fs[0]) + PrintFrames(fs[1..])
  }

  /** 1024 samples per raw data block. */
  function SampleCount(fs: seq<Frame>): nat {
    if fs == [] then 0 else fs[0].blocks * 1024 + SampleCount(fs[1..])
  }

  function AccumulateAll(samples: int, fs: seq<Frame>): int
    decreases |fs|
  {
    if fs == [] then samples else AccumulateAll(Accumulate(samples, fs[0].blocks), fs[1..])
  }

  lemma WrapSum(a: int, b: int)
    ensures ToInt64(ToInt64(a) + b) == ToInt64(a + b)
  {
  }

  /** Wrapping at every addition is wrapping once, at the end. */
  lemma {:induction false} AccumulateSum(samples: int, fs: seq<Frame>)
    ensures AccumulateAll(ToInt64(samples), fs) == ToInt64(samples + SampleCount(fs))
    decreases |fs|
  {
    if fs != [] {
      WrapSum(samples, fs[0].blocks * 1024);
      AccumulateSum(samples + fs[0].blocks * 1024, fs[1..]);
    }
  }

  lemma WalkOne(f: Frame, rest: seq<byte>, samples: int, rate: nat)
    requires WellFormed(f)
    ensures WalkFrames(PrintFrame(f) + rest, samples, rate)
      == WalkFrames(rest, Accumulate(samples, f.blocks), if rate == 0 then SampleRates[f.rateIdx] else rate)
  {
    var s := PrintFrame(f) + rest;
    ReadPrintedHeader(f);
    assert s[..7] == PrintHeader(f) && s[Size(f)..] == rest && |s| >= Size(f);
  }

  lemma FirstPrinted(f: Frame, fs: seq<Frame>, more: seq<byte>)
    requires WellFormed(f) && forall i :: 0 <= i < |fs| ==> WellFormed(fs[i])
    ensures PrintFrames([f] + fs) + more == PrintFrame(f) + (PrintFrames(fs) + more)
  {
    assert ([f] + fs)[1..] == fs;
  }

  /** The first frame that gives a rate decides. */
  function RateAfter(rate: nat, f: Frame): nat
    requires WellFormed(f)
  {
    if rate == 0 then SampleRates[f.rateIdx] else rate
  }

  lemma WalkHead(f: Frame, fs: seq<Frame>, more: seq<byte>, samples: int, rate: nat)
    requires WellFormed(f) && forall i :: 0 <= i < |fs| ==> WellFormed(fs[i])
    ensures WalkFrames(PrintFrames([f] + fs) + more, samples, rate)
      == WalkFrames(PrintFrames(fs) + more, Accumulate(samples, f.blocks), RateAfter(rate, f))
  {
    FirstPrinted(f, fs, more);
    WalkOne(f, PrintFrames(fs) + more, samples, rate);
  }

  /** Whatever follows, the frames in front of it are walked over. */
  lemma {:induction false} WalkPrinted(fs: seq<Frame>, more: seq<byte>, samples: int, rate: nat)
    requires forall i :: 0 <= i < |fs| ==> WellFormed(fs[i])
    ensures WalkFrames(PrintFrames(fs) + more, samples, rate)
      == WalkFrames(more, AccumulateAll(samples, fs), if fs == [] then rate else RateAfter(rate, fs[0]))
    decreases |fs|
  {
    if fs == [] {
      assert PrintFrames(fs) + more == more;
    } else {
      assert fs == [fs[0]] + fs[1..];
      WalkHead(fs[0], fs[1..], more, samples, rate);
      WalkPrinted(fs[1..], more, Accumulate(samples, fs[0].blocks), RateAfter(rate, fs[0]));
    }
  }

  /** A frame cut short counts exactly if its header is complete. */
  lemma WalkCut(f: Frame, k: nat, samples: int, rate: nat)
    requires WellFormed(f) && k < Size(f) && rate > 0
    ensures WalkFrames(PrintFrame(f)[..k], samples, rate)
      == Walked(if BlocksSeen(f, k) == 0 then samples else Accumulate(samples, f.blocks), rate)
  {
    var s := PrintFrame(f)[..k];
    ReadPrintedHeader(f);
    if k >= 7 {
      assert s[..7] == PrintHeader(f);
    }
  }

  /** The blocks of raw data, 1024 samples each. */
  function Blocks(fs: seq<Frame>): nat {
    if fs == [] then 0 else fs[0].blocks + Blocks(fs[1..])
  }

  lemma {:induction false} SamplesOfBlocks(fs: seq<Frame>)
    ensures SampleCount(fs) == 1024 * Blocks(fs)
  {
    if fs != [] { SamplesOfBlocks(fs[1..]); }
  }

  /** The answer for this many blocks at the first frame's rate: exact
      precisely up to 9223372036 samples. */
  predicate Timed(r: ParseResult, size: nat, blocks: nat, rate: nat)
    requires rate > 0
  {
    && r.Parsed? && r.info.sizeBytes == size
    && (r.info.duration == 1024 * blocks * 1_000_000_000 / rate <==> 1024 * blocks <= 9223372036)
  }

  lemma TimedAll(blocks: nat, rate: nat, size: nat)
    requires 0 < rate < TwoTo32
    ensures Timed(Parsed(AudioInfo(GoDuration(ToInt64(1024 * blocks), rate), size)), size, blocks, rate)
  {
    WrapTwice(1024 * blocks);
    DurationExactIff(1024 * blocks, rate);
  }

  lemma ParseWalk(s: seq<byte>, blocks: nat, rate: nat)
    requires 0 < rate < TwoTo32 && WalkFrames(s, 0, 0) == Walked(ToInt64(1024 * blocks), rate)
    ensures Timed(Parse(s), |s|, blocks, rate)
  {
    TimedAll(blocks, rate, |s|);
  }

  lemma WalkBlocks(fs: seq<Frame>, more: seq<byte>)
    requires fs != [] && (forall i :: 0 <= i < |fs| ==> WellFormed(fs[i]))
    ensures WalkFrames(PrintFrames(fs) + more, 0, 0)
      == WalkFrames(more, ToInt64(1024 * Blocks(fs)), SampleRates[fs[0].rateIdx])
  {
    WalkPrinted(fs, more, 0, 0);
    AccumulateSum(0, fs);
    SamplesOfBlocks(fs);
  }

  lemma RatesPositive(i: nat)
    requires i < |SampleRates|
    ensures 0 < SampleRates[i] < TwoTo32
  {
  }

  /** Main result: any non-empty sequence of well-formed frames parses to its
      own size and to the duration of all its samples at the first frame's
      rate. */
  lemma PrintParse(fs: seq<Frame>)
    requires fs != [] && (forall i :: 0 <= i < |fs| ==> WellFormed(fs[i]))
    ensures Timed(Parse(PrintFrames(fs)), |PrintFrames(fs)|, Blocks(fs), SampleRates[fs[0].rateIdx])
  {
    WalkBlocks(fs, []);
    assert PrintFrames(fs) + [] == PrintFrames(fs);
    RatesPositive(fs[0].rateIdx);
    ParseWalk(PrintFrames(fs), Blocks(fs), SampleRates[fs[0].rateIdx]);
  }

  /** The blocks of a frame of which k bytes are there: they count exactly if
      its header is complete. */
  function BlocksSeen(f: Frame, k: nat): nat {
    if k < (if f.hasCrc then 9 else 7) then 0 else f.blocks
  }

  /** The beginning of a frame. */
  predicate Cut(f: Frame, cut: seq<byte>) {
    WellFormed(f) && cut < PrintFrame(f)
  }

  lemma CutAdds(blocks: nat, samples: int, f: Frame, cut: seq<byte>, rate: nat)
    requires Cut(f, cut) && rate > 0 && samples == ToInt64(1024 * blocks)
    ensures WalkFrames(cut, samples, rate) == Walked(ToInt64(1024 * (blocks + BlocksSeen(f, |cut|))), rate)
  {
    assert cut == PrintFrame(f)[..|cut|];
    WalkCut(f, |cut|, samples, rate);
    AddBlocks(blocks, f.blocks);
  }

  lemma FollowedBy(fs: seq<Frame>, more: seq<byte>, samples: int, blocks: nat)
    requires fs != [] && WellFormed(fs[0]) && (forall i :: 0 <= i < |fs| ==> WellFormed(fs[i]))
    requires samples == ToInt64(1024 * Blocks(fs))
    requires WalkFrames(more, samples, SampleRates[fs[0].rateIdx])
          == Walked(ToInt64(1024 * blocks), SampleRates[fs[0].rateIdx])
    ensures Timed(Parse(PrintFrames(fs) + more), |PrintFrames(fs) + more|, blocks, SampleRates[fs[0].rateIdx])
  {
    WalkBlocks(fs, more);
    RatesPositive(fs[0].rateIdx);
    ParseWalk(PrintFrames(fs) + more, blocks, SampleRates[fs[0].rateIdx]);
  }

  /** A stream that ends inside a frame parses too. */
  lemma CutParse(fs: seq<Frame>, f: Frame, cut: seq<byte>)
    requires fs != [] && WellFormed(fs[0]) && (forall i :: 0 <= i < |fs| ==> WellFormed(fs[i])) && Cut(f, cut)
    ensures var stream := PrintFrames(fs) + cut;
            Timed(Parse(stream), |stream|, Blocks(fs) + BlocksSeen(f, |cut|), SampleRates[fs[0].rateIdx])
  {
    RatesPositive(fs[0].rateIdx);
    var samples, rate := ToInt64(1024 * Blocks(fs)), SampleRates[fs[0].rateIdx];
    CutAdds(Blocks(fs), samples, f, cut, rate);
    FollowedBy(fs, cut, samples, Blocks(fs) + BlocksSeen(f, |cut|));
  }

  lemma AddBlocks(blocks: nat, more: nat)
    ensures Accumulate(ToInt64(1024 * blocks), more) == ToInt64(1024 * (blocks + more))
  {
    WrapSum(1024 * blocks, 1024 * more);
  }

  /** What no frame can start with: a lost sync word, or, after a complete
      header, a reserved rate or a length below the header's own. */
  predicate BadStart(s: seq<byte>) {
    && |s| >= 9
    && var b1, b2, b3, b4, b5: int := s[1], s[2], s[3], s[4], s[5];
       || s[0] != 0xFF || b1 < 0xF0
       || b2 / 4 % 16 >= 13
       || b3 % 4 * 2048 + b4 * 8 + b5 / 32 < (if b1 % 2 == 0 then 9 else 7)
  }

  /** After any frames, a bad one makes the parse fail. */
  lemma BadFrameFails(fs: seq<Frame>, bad: seq<byte>)
    requires (forall i :: 0 <= i < |fs| ==> WellFormed(fs[i])) && BadStart(bad)
    ensures Parse(PrintFrames(fs) + bad) == ParseFailed
  {
    WalkPrinted(fs, bad, 0, 0);
    assert bad[..7][0] == bad[0] && bad[..7][1] == bad[1] && bad[..7][2] == bad[2] && bad[..7][3] == bad[3]
           && bad[..7][4] == bad[4] && bad[..7][5] == bad[5];
  }

  /** Fewer than 7 bytes are no stream. */
  lemma ShortFails(s: seq<byte>)
    requires |s| < 7
    ensures Parse(s) == ParseFailed
  {
  }

  lemma WrapTwice(n: int)
    ensures ToInt64(ToInt64(n)) == ToInt64(n)
  {
  }
}
