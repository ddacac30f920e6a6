/** ParseM4A and its helpers as loops that consume a reader. */
module M4aParser {
  import opened Bytes
  import opened Duration
  import opened AudioReader
  import opened M4a

  method ReadM4ABoxHeader(cr: CountingReader, limit: nat) returns (r: HeaderResult)
    requires cr.Within(limit)
    modifies cr
    ensures cr.Within(limit) && old(cr.n) <= cr.n
    ensures r == ReadBoxHeader(old(cr.Left(limit)))
    ensures r.Header? ==> cr.Left(limit) == old(cr.Left(limit))[r.used..] && cr.n >= old(cr.n) + 8
  {
    ghost var s := cr.Left(limit);
    var header, err := cr.ReadFull(HeaderSize, limit);
    if err != NoError {
      return NoHeader;
    }
    assert header[0..4] == s[..4] && header[4..8] == s[4..8];
    var size := Uint32(header[0..4]);
    var boxType := header[4..8];
    if size == 0 {
      return Header(boxType, ExtendsToEof, HeaderSize);
    }
    if size == 1 {
      var largeSizeBuf;
      largeSizeBuf, err := cr.ReadFull(LargeSizeFieldSize, limit);
      if err != NoError {
        return BadHeader;
      }
      assert largeSizeBuf == s[8..16];
      var largeSize := Uint64(largeSizeBuf);
      if largeSize < HeaderSize + LargeSizeFieldSize {
        return BadHeader;
      }
      return Header(boxType, ToInt64(ToInt64(largeSize) - HeaderSize - LargeSizeFieldSize),
                    HeaderSize + LargeSizeFieldSize);
    }
    if size < HeaderSize {
      return BadHeader;
    }
    Uint32Bound(header[0..4]);
    r := Header(boxType, size - HeaderSize, HeaderSize);
  }

  method SkipM4ABoxPayload(cr: CountingReader, payloadLen: int, limit: nat) returns (ok: bool)
    requires cr.Within(limit)
    modifies cr
    ensures cr.Within(limit) && old(cr.n) <= cr.n
    ensures ok <==> SkipPayload(old(cr.Left(limit)), payloadLen).Skipped?
    ensures ok ==> cr.Left(limit) == SkipPayload(old(cr.Left(limit)), payloadLen).rest
  {
    if payloadLen == ExtendsToEof {
      cr.Drain(limit);
      return true;
    }
    ok := cr.Discard(payloadLen, limit);
  }

  method FindM4AMvhdInMoov(cr: CountingReader, moovLen: int) returns (r: DurationResult)
    requires cr.Within(|cr.data|)
    modifies cr
    ensures cr.Within(|cr.data|) && r == FindMvhd(MoovBytes(old(cr.Left(|cr.data|)), moovLen))
  {
    var limit := MoovLimit(cr.data, cr.n, moovLen);
    assert cr.Left(|cr.data|) == cr.data[cr.n..];
    assert cr.Left(limit) == MoovBytes(cr.Left(|cr.data|), moovLen);
    r := WalkMoov(cr, limit);
  }

  /** The loop of findM4AMvhdInMoov under the payload's limit. */
  method WalkMoov(cr: CountingReader, limit: nat) returns (r: DurationResult)
    requires cr.Within(limit)
    modifies cr
    ensures cr.Within(|cr.data|) && r == FindMvhd(old(cr.Left(limit)))
  {
    while true
      invariant cr.Within(limit)
      invariant FindMvhd(cr.Left(limit)) == FindMvhd(old(cr.Left(limit)))
      decreases limit - cr.n
    {
      var header := ReadM4ABoxHeader(cr, limit);
      if header.NoHeader? {
        return NotFound;
      }
      if header.BadHeader? {
        return Failed;
      }
      if header.boxType != Mvhd {
        var skipped := SkipM4ABoxPayload(cr, header.payloadLen, limit);
        if !skipped {
          return Failed;
        }
      } else {
        r := ReadMvhd(cr, header.payloadLen, limit);
        return;
      }
    }
  }

  method ReadMvhd(cr: CountingReader, payloadLen: int, limit: nat) returns (r: DurationResult)
    requires cr.Within(limit)
    modifies cr
    ensures cr.Within(limit) && r == TakeMvhd(old(cr.Left(limit)), payloadLen)
  {
    if payloadLen == ExtendsToEof {
      return Failed;
    }
    if payloadLen < 0 || payloadLen > MaxMake {
      return Panics;
    }
    var payload, err := cr.ReadFull(payloadLen, limit);
    if err != NoError {
      return Failed;
    }
    r := ParseMvhd(payload);
  }

  method FindM4AMvhdDuration(cr: CountingReader) returns (r: DurationResult)
    requires cr.Within(|cr.data|)
    modifies cr
    ensures cr.Within(|cr.data|) && r == FindDuration(old(cr.Left(|cr.data|)))
  {
    var limit := |cr.data|;
    while true
      invariant cr.Within(limit)
      invariant FindDuration(cr.Left(limit)) == FindDuration(old(cr.Left(|cr.data|)))
      decreases limit - cr.n
    {
      var header := ReadM4ABoxHeader(cr, limit);
      if !header.Header? {
        return Failed;
      }
      if header.boxType != Moov {
        var skipped := SkipM4ABoxPayload(cr, header.payloadLen, limit);
        if !skipped {
          return Failed;
        }
      } else {
        r := FindM4AMvhdInMoov(cr, header.payloadLen);
        if r.NotFound? {
          return Failed;
        }
        return;
      }
    }
  }

  /** The leading ftyp box. */
  method SkipFtyp(cr: CountingReader) returns (ok: bool)
    requires cr.Within(|cr.data|)
    modifies cr
    ensures cr.Within(|cr.data|)
    ensures ok <==> AfterFtyp(old(cr.Left(|cr.data|))).Some?
    ensures ok ==> cr.Left(|cr.data|) == AfterFtyp(old(cr.Left(|cr.data|))).value
  {
    var header := ReadM4ABoxHeader(cr, |cr.data|);
    if !header.Header? || header.boxType != Ftyp {
      return false;
    }
    ok := SkipM4ABoxPayload(cr, header.payloadLen, |cr.data|);
  }

  /** sizeBytes is the reader's own count of the bytes it handed out. */
  method ParseM4A(stream: seq<byte>) returns (r: ParseResult)
    ensures r == Parse(stream)
    ensures r.Parsed? ==> r.info.sizeBytes == |stream|
  {
    var cr := new CountingReader(stream);
    assert cr.Left(|stream|) == stream;
    var isM4a := SkipFtyp(cr);
    if !isM4a {
      return ParseFailed;
    }
    var duration := FindM4AMvhdDuration(cr);
    if duration.Panics? {
      return ParsePanics;
    }
    if !duration.Got? {
      return ParseFailed;
    }
    cr.Drain(|stream|);
    r := Parsed(AudioInfo(duration.duration, cr.n));
  }
}
