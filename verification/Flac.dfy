/** ParseFLAC: metadata blocks up to STREAMINFO. */
module Flac {
  import opened Bytes
  import opened Duration
  import opened AudioReader

  const Marker: seq<byte> := [0x66, 0x4c, 0x61, 0x43]
  const StreamInfoLength := 18  // the bytes the parser indexes

  /** The STREAMINFO fields: a 20-bit rate and a 36-bit sample count. */
  function SampleRateOf(data: seq<byte>): nat
    requires |data| >= StreamInfoLength
  {
    var d10, d11, d12: int := data[10], data[11], data[12];
    d10 * 4096 + d11 * 16 + d12 / 16
  }

  function TotalSamplesOf(data: seq<byte>): nat
    requires |data| >= StreamInfoLength
  {
    var d13: int := data[13];
    d13 % 16 * TwoTo32 + Uint32(data[14..18])
  }

  /** Indexing past a short STREAMINFO block panics: the rate's bytes first,
      then, unless the rate is zero, the sample count's. */
  function ParseStreamInfo(data: seq<byte>): DurationResult {
    if |data| < 13 then Panics
    else if data[10] == 0 && data[11] == 0 && data[12] < 16 then Failed
    else if |data| < StreamInfoLength then Panics
    else Got(GoDuration(TotalSamplesOf(data), SampleRateOf(data)))
  }

  function BlockLength(header: seq<byte>): nat
    requires |header| == 4
  {
    header[1] * TwoTo16 + header[2] * TwoTo8 + header[3]
  }

  function FindStreamInfo(s: seq<byte>): DurationResult
    decreases |s|
  {
    if |s| < 4 then Failed
    else
      var isLast, blockType, blockLen := s[0] >= 0x80, s[0] % 0x80, BlockLength(s[..4]);
      if |s| - 4 < blockLen then Failed
      else if blockType == 0 then ParseStreamInfo(s[4..4 + blockLen])
      else if isLast then Failed
      else FindStreamInfo(s[4 + blockLen..])
  }

  function Parse(s: seq<byte>): ParseResult {
    if |s| < 4 || s[..4] != Marker then ParseFailed else Outcome(FindStreamInfo(s[4..]), |s|)
  }

  /** The loop of ParseFLAC, from the marker on. */
  method WalkBlocks(cr: CountingReader) returns (r: DurationResult)
    requires cr.Within(|cr.data|)
    modifies cr
    ensures cr.Within(|cr.data|) && r == FindStreamInfo(old(cr.Left(|cr.data|)))
  {
    var limit := |cr.data|;
    while true
      invariant cr.Within(limit)
      invariant FindStreamInfo(cr.Left(limit)) == FindStreamInfo(old(cr.Left(|cr.data|)))
      decreases limit - cr.n
    {
      ghost var s := cr.Left(limit);
      var blockHeader, err := cr.ReadFull(4, limit);
      if err != NoError {
        return Failed;
      }
      assert blockHeader == s[..4];
      var isLast := blockHeader[0] >= 0x80;
      var blockType := blockHeader[0] % 0x80;
      var blockLen := BlockLength(blockHeader);
      if blockType == 0 {
        var data;
        data, err := cr.ReadFull(blockLen, limit);
        if err != NoError {
          return Failed;
        }
        assert data == s[4..4 + blockLen];
        return ParseStreamInfo(data);
      }
      var ok := cr.Discard(blockLen, limit);
      if !ok || isLast {
        return Failed;
      }
      assert cr.Left(limit) == s[4 + blockLen..];
    }
  }

  method ParseFLAC(stream: seq<byte>) returns (r: ParseResult)
    ensures r == Parse(stream)
    ensures r.Parsed? ==> r.info.sizeBytes == |stream|
  {
    var cr := new CountingReader(stream);
    assert cr.Left(|stream|) == stream;
    var marker, err := cr.ReadFull(4, |stream|);
    if err != NoError || marker != Marker {
      return ParseFailed;
    }
    var found := WalkBlocks(cr);
    if found.Panics? {
      return ParsePanics;
    }
    if !found.Got? {
      return ParseFailed;
    }
    cr.Drain(|stream|);
    r := Parsed(AudioInfo(found.duration, cr.n));
  }

  // ---- Printer ------------------------------------------------------------------

  datatype Block = Block(blockType: nat, data: seq<byte>)

  predicate WellFormed(b: Block) {
    0 < b.blockType < 0x80 && |b.data| < TwoTo24
  }

  function PrintBlockHeader(isLast: bool, blockType: nat, length: nat): (h: seq<byte>)
    requires blockType < 0x80 && length < TwoTo24
    ensures |h| == 4 && BlockLength(h) == length && h[0] % 0x80 == blockType && (h[0] >= 0x80 <==> isLast)
  {
    [(if isLast then 0x80 else 0) + blockType, length / TwoTo16, length / 256 % 256, length % 256]
  }

  function PrintBlock(b: Block): seq<byte>
    requires WellFormed(b)
  {
    PrintBlockHeader(false, b.blockType, |b.data|) + b.data
  }

  function PrintBlocks(bs: seq<Block>): seq<byte>
    requires forall i :: 0 <= i < |bs| ==> WellFormed(bs[i])
  {
    if bs == [] then []
    else PrintBlock(bs[0]) + PrintBlocks(bs[1..])
  }

  /** The four bytes that hold the rate, the channel bits and the top of the count. */
  function PackFields(rate: nat, chanBits: nat, samplesHigh: nat): (fields: seq<byte>)
    requires rate < 0x10_0000 && chanBits < 256 && samplesHigh < 16
    ensures |fields| == 4 && fields[3] % 16 == samplesHigh
    ensures var f0, f1, f2: int := fields[0], fields[1], fields[2]; f0 * 4096 + f1 * 16 + f2 / 16 == rate
  {
    assert rate == rate / 4096 * 4096 + rate / 16 % 256 * 16 + rate % 16 by { assert rate / 16 / 256 == rate / 4096; }
    [rate / 4096, rate / 16 % 256, rate % 16 * 16 + chanBits / 16, chanBits % 16 * 16 + samplesHigh]
  }

  /** sizes: the 10 bytes of block and frame sizes; chanBits: channels and bits
      per sample, 8 bits; md5 and whatever follows in the block. */
  function PrintStreamInfo(sizes: seq<byte>, rate: nat, chanBits: nat, samples: nat, md5: seq<byte>): (data: seq<byte>)
    requires |sizes| == 10 && rate < 0x10_0000 && chanBits < 256 && samples < 0x10_0000_0000
    ensures |data| == StreamInfoLength + |md5| && SampleRateOf(data) == rate && TotalSamplesOf(data) == samples
  {
    var count := PutUint32(samples % TwoTo32);
    var fields := PackFields(rate, chanBits, samples / TwoTo32);
    var data := sizes + fields + count + md5;
    assert data[14..18] == count;
    assert data[10] == fields[0] && data[11] == fields[1] && data[12] == fields[2] && data[13] == fields[3];
    data
  }

  lemma SkipBlock(b: Block, rest: seq<byte>)
    requires WellFormed(b)
    ensures FindStreamInfo(PrintBlock(b) + rest) == FindStreamInfo(rest)
  {
  }

  lemma {:induction false} SkipBlocks(bs: seq<Block>, more: seq<byte>)
    requires forall i :: 0 <= i < |bs| ==> WellFormed(bs[i])
    ensures FindStreamInfo(PrintBlocks(bs) + more) == FindStreamInfo(more)
    decreases |bs|
  {
    if bs == [] {
      assert PrintBlocks(bs) + more == more;
    } else {
      var rest := PrintBlocks(bs[1..]) + more;
      assert PrintBlocks(bs) + more == PrintBlock(bs[0]) + rest;
      SkipBlock(bs[0], rest);
      SkipBlocks(bs[1..], more);
    }
  }

  /** A stream of metadata blocks, then a STREAMINFO block with any contents. */
  function PrintStream(bs: seq<Block>, isLast: bool, info: seq<byte>, tail: seq<byte>): seq<byte>
    requires (forall i :: 0 <= i < |bs| ==> WellFormed(bs[i])) && |info| < TwoTo24
  {
    Marker + (PrintBlocks(bs) + (PrintBlockHeader(isLast, 0, |info|) + info + tail))
  }

  lemma StreamInfoDecides(bs: seq<Block>, isLast: bool, info: seq<byte>, tail: seq<byte>)
    requires (forall i :: 0 <= i < |bs| ==> WellFormed(bs[i])) && |info| < TwoTo24
    ensures var stream := PrintStream(bs, isLast, info, tail);
            Parse(stream) == Outcome(ParseStreamInfo(info), |stream|)
  {
    var h := PrintBlockHeader(isLast, 0, |info|);
    var last := h + info + tail;
    var stream := PrintStream(bs, isLast, info, tail);
    assert stream[..4] == Marker && stream[4..] == PrintBlocks(bs) + last;
    SkipBlocks(bs, last);
    assert last[..4] == h && last[4..4 + |info|] == info;
  }

  /** Without the marker "fLaC" nothing is parsed. */
  lemma NoMarkerFails(s: seq<byte>)
    requires |s| < 4 || s[0] as char != 'f' || s[1] as char != 'L' || s[2] as char != 'a' || s[3] as char != 'C'
    ensures Parse(s) == ParseFailed
  {
    if |s| >= 4 {
      assert s[..4][0] == s[0] && s[..4][1] == s[1] && s[..4][2] == s[2] && s[..4][3] == s[3];
    }
  }

  /** Where the walk over blocks ends without a STREAMINFO: inside a header or
      a block, or at a last block of another type. */
  predicate DeadEnd(s: seq<byte>) {
    || |s| < 4
    || (var s1, s2, s3: int := s[1], s[2], s[3]; |s| - 4 < s1 * 0x1_0000 + s2 * 0x100 + s3)
    || s[0] > 0x80
  }

  lemma WalkDeadEnd(s: seq<byte>)
    requires DeadEnd(s)
    ensures FindStreamInfo(s) == Failed
  {
    if |s| >= 4 {
      assert s[..4][1] == s[1] && s[..4][2] == s[2] && s[..4][3] == s[3];
    }
  }

  lemma DeadEndFails(bs: seq<Block>, rest: seq<byte>)
    requires (forall i :: 0 <= i < |bs| ==> WellFormed(bs[i])) && DeadEnd(rest)
    ensures Parse(Marker + (PrintBlocks(bs) + rest)) == ParseFailed
  {
    var stream := Marker + (PrintBlocks(bs) + rest);
    assert stream[..4] == Marker && stream[4..] == PrintBlocks(bs) + rest;
    SkipBlocks(bs, rest);
    WalkDeadEnd(rest);
  }

  /** A zero rate is refused. */
  lemma ZeroRateFails(bs: seq<Block>, isLast: bool, sizes: seq<byte>, chanBits: nat, samples: nat, md5: seq<byte>,
                      tail: seq<byte>)
    requires forall i :: 0 <= i < |bs| ==> WellFormed(bs[i])
    requires |sizes| == 10 && chanBits < 256 && samples < 0x10_0000_0000 && StreamInfoLength + |md5| < TwoTo24
    ensures Parse(PrintStream(bs, isLast, PrintStreamInfo(sizes, 0, chanBits, samples, md5), tail)) == ParseFailed
  {
    StreamInfoDecides(bs, isLast, PrintStreamInfo(sizes, 0, chanBits, samples, md5), tail);
  }

  /** A STREAMINFO block shorter than the 18 bytes the parser indexes crashes
      it, unless a zero rate was seen first; a longer one never does. */
  lemma PanicsIffShort(bs: seq<Block>, isLast: bool, info: seq<byte>, tail: seq<byte>)
    requires (forall i :: 0 <= i < |bs| ==> WellFormed(bs[i])) && |info| < TwoTo24
    ensures Parse(PrintStream(bs, isLast, info, tail)) == ParsePanics <==>
      |info| < 13 || (|info| < StreamInfoLength && !(info[10] == 0 && info[11] == 0 && info[12] < 16))
  {
    StreamInfoDecides(bs, isLast, info, tail);
  }

  /** Main result: metadata blocks in any number ahead of a packed STREAMINFO,
      then anything; both fields come back through the shifts, the size is the
      stream's, and the duration is exact precisely up to 9223372036 samples. */
  lemma PrintParse(bs: seq<Block>, isLast: bool, sizes: seq<byte>, rate: nat, chanBits: nat, samples: nat,
                   md5: seq<byte>, tail: seq<byte>)
    requires forall i :: 0 <= i < |bs| ==> WellFormed(bs[i])
    requires |sizes| == 10 && 0 < rate < 0x10_0000 && chanBits < 256 && samples < 0x10_0000_0000
    requires StreamInfoLength + |md5| < TwoTo24
    ensures var stream := PrintStream(bs, isLast, PrintStreamInfo(sizes, rate, chanBits, samples, md5), tail);
            var r := Parse(stream);
            && r.Parsed? && r.info.sizeBytes == |stream|
            && (r.info.duration == samples * 1_000_000_000 / rate <==> samples <= 9223372036)
  {
    StreamInfoDecides(bs, isLast, PrintStreamInfo(sizes, rate, chanBits, samples, md5), tail);
    DurationExactIff(samples, rate);
  }
}
