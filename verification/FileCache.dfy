/**
 files_cache.File: one uploader fills a buffer while any number of range
 readers follow it. Every interleaving of the locked sections, of the reads
 from the source and of the writes to each reader's pipe is a run.
 */
module FileCache {
  import opened Bytes
  import opened Wrappers

  const ReadSize := 32768

  datatype ReaderStatus = Running | Drained | Broken

  /** The goroutine of one Get. chunk is the slice it holds between its locked
      section and its pipe write; out is what the pipe accepted. */
  datatype Reader = Reader(start: nat, end: int, pos: int, chunk: Option<(int, int)>, out: seq<byte>,
                           status: ReaderStatus)

  /** source is everything the upload's reader could ever deliver; its first
      `written` bytes were delivered. */
  datatype State = State(source: seq<byte>, size: nat, buffer: seq<byte>, written: nat,
                         sourceOver: bool, finished: bool, readers: map<nat, Reader>)

  datatype Action =
    | Deliver(n: nat, ended: bool)       // one src.Read of n bytes, with an error or not
    | FinishUpload
    | Open(r: nat, start: nat, end: int) // Get
    | TakeChunk(r: nat)                  // the locked section of Get
    | EndLoop(r: nat)
    | WriteChunk(r: nat, ok: bool)       // the unlocked pipe write

  function Min(a: int, b: int): int {
    if a < b then a else b
  }

  /** copy(f.buffer[at..], data) */
  function Overlay(buffer: seq<byte>, at: nat, data: seq<byte>): (r: seq<byte>)
    requires at <= |buffer|
    ensures |r| == |buffer|
    ensures forall i :: 0 <= i < at ==> r[i] == buffer[i]
    ensures forall i :: at <= i < Min(|buffer|, at + |data|) ==> r[i] == data[i - at]
    ensures forall i :: Min(|buffer|, at + |data|) <= i < |buffer| ==> r[i] == buffer[i]
  {
    if at + |data| <= |buffer| then buffer[..at] + data + buffer[at + |data|..]
    else buffer[..at] + data[..|buffer| - at]
  }

  function ClampEnd(end: int, size: nat): int {
    if end >= size || end == -1 then size - 1 else end
  }

  ghost predicate Init(s: State) {
    && |s.buffer| == s.size && s.written == 0
    && !s.sourceOver && !s.finished && s.readers == map[]
  }

  predicate Idle(s: State, r: nat) {
    r in s.readers && s.readers[r].status == Running && s.readers[r].chunk == None
  }

  predicate Enabled(s: State, a: Action) {
    match a
    case Deliver(n, _) => !s.sourceOver && s.written < s.size && n <= ReadSize && s.written + n <= |s.source|
    case FinishUpload => !s.finished && (s.sourceOver || s.written >= s.size)
    case Open(r, _, _) => r !in s.readers
    case TakeChunk(r) =>
      Idle(s, r) && s.readers[r].pos <= s.readers[r].end && (s.readers[r].pos < s.written || s.finished)
    case EndLoop(r) => Idle(s, r) && s.readers[r].pos > s.readers[r].end
    case WriteChunk(r, _) => r in s.readers && s.readers[r].status == Running && s.readers[r].chunk.Some?
  }

  function BytesOf(buffer: seq<byte>, chunk: (int, int)): seq<byte> {
    if 0 <= chunk.0 <= chunk.1 <= |buffer| then buffer[chunk.0..chunk.1] else []
  }

  /** The locked section of Get on a buffer of length len. */
  function Take(rd: Reader, written: nat, len: nat): Reader {
    if rd.pos >= written then rd.(status := Drained)
    else
      var toWrite := Min(rd.end - rd.pos + 1, written - rd.pos);
      rd.(chunk := Some((rd.pos, Min(rd.pos + toWrite, len))), pos := rd.pos + toWrite)
  }

  function Put(s: State, r: nat, rd: Reader): State {
    s.(readers := s.readers[r := rd])
  }

  function Apply(s: State, a: Action): State
    requires Enabled(s, a) && |s.buffer| == s.size
  {
    match a
    case Deliver(n, ended) =>
      s.(buffer := Overlay(s.buffer, s.written, s.source[s.written..s.written + n]),
         written := s.written + n, sourceOver := ended)
    case FinishUpload => s.(finished := true)
    case Open(r, start, end) => Put(s, r, Reader(start, ClampEnd(end, s.size), start, None, [], Running))
    case TakeChunk(r) => Put(s, r, Take(s.readers[r], s.written, |s.buffer|))
    case EndLoop(r) => Put(s, r, s.readers[r].(status := Drained))
    case WriteChunk(r, ok) =>
      var rd := s.readers[r];
      if ok then Put(s, r, rd.(out := rd.out + BytesOf(s.buffer, rd.chunk.value), chunk := None))
      else Put(s, r, rd.(status := Broken))
  }

  ghost predicate Run(states: seq<State>, actions: seq<Action>) {
    && |states| == |actions| + 1
    && Init(states[0])
    && forall i {:trigger actions[i]} :: 0 <= i < |actions| ==>
         && |states[i].buffer| == states[i].size
         && Enabled(states[i], actions[i]) && states[i + 1] == Apply(states[i], actions[i])
  }

  // ---- Invariant ------------------------------------------------------------------

  /** The buffer holds what was delivered; the last read may overrun its end. */
  ghost predicate BufferOk(s: State) {
    && |s.buffer| == s.size
    && s.written <= |s.source| && s.written < s.size + ReadSize
    && (forall i :: 0 <= i < Min(s.written, s.size) ==> s.buffer[i] == s.source[i])
    && (s.finished ==> s.sourceOver || s.written >= s.size)
  }

  ghost predicate ReaderOk(s: State, rd: Reader) {
    && rd.end < s.size
    && rd.start <= rd.pos
    && (rd.pos == rd.start || rd.pos <= Min(rd.end + 1, s.written))
    && (match rd.chunk
        case None =>
          if rd.pos == rd.start then rd.out == []
          else rd.pos <= |s.source| && rd.out == s.source[rd.start..rd.pos]
        case Some((lo, hi)) =>
          && rd.start <= lo < hi == rd.pos && rd.pos <= Min(s.written, s.size) && rd.pos <= |s.source|
          && rd.out == s.source[rd.start..lo])
    && (rd.status == Drained ==> rd.chunk == None && (rd.pos > rd.end || (s.finished && rd.pos >= s.written)))
  }

  ghost predicate Inv(s: State) {
    BufferOk(s) && forall r :: r in s.readers ==> ReaderOk(s, s.readers[r])
  }

  lemma DeliverKeeps(s: State, n: nat, ended: bool)
    requires Inv(s) && Enabled(s, Deliver(n, ended))
    ensures Inv(Apply(s, Deliver(n, ended)))
  {
  }

  lemma TakeKeeps(s: State, rd: Reader)
    requires BufferOk(s) && ReaderOk(s, rd) && rd.status == Running && rd.chunk == None && rd.pos <= rd.end
    requires rd.pos < s.written || s.finished
    ensures ReaderOk(s, Take(rd, s.written, |s.buffer|))
  {
  }

  /** One reader's step leaves the buffer and every other reader alone. */
  lemma PutKeeps(s: State, r: nat, rd: Reader)
    requires Inv(s) && ReaderOk(s, rd)
    ensures Inv(Put(s, r, rd))
  {
  }

  lemma ReaderStepKeeps(s: State, a: Action)
    requires Inv(s) && Enabled(s, a) && (a.Open? || a.TakeChunk? || a.EndLoop? || a.WriteChunk?)
    ensures Inv(Apply(s, a))
  {
    match a
    case Open(r, start, end) => PutKeeps(s, r, Reader(start, ClampEnd(end, s.size), start, None, [], Running));
    case TakeChunk(r) =>
      assert ReaderOk(s, s.readers[r]);
      TakeKeeps(s, s.readers[r]);
      PutKeeps(s, r, Take(s.readers[r], s.written, |s.buffer|));
    case EndLoop(r) =>
      assert ReaderOk(s, s.readers[r]);
      PutKeeps(s, r, s.readers[r].(status := Drained));
    case WriteChunk(r, ok) =>
      var rd := s.readers[r];
      assert ReaderOk(s, rd);
      WriteKeeps(s, rd);
      PutKeeps(s, r, if ok then rd.(out := rd.out + BytesOf(s.buffer, rd.chunk.value), chunk := None)
               else rd.(status := Broken));
  }

  /** A chunk written after the lock was released still holds the source's bytes. */
  lemma WriteKeeps(s: State, rd: Reader)
    requires BufferOk(s) && ReaderOk(s, rd) && rd.chunk.Some?
    ensures rd.out + BytesOf(s.buffer, rd.chunk.value) == s.source[rd.start..rd.pos]
  {
  }

  lemma StepKeeps(s: State, a: Action)
    requires Inv(s) && Enabled(s, a)
    ensures Inv(Apply(s, a))
  {
    match a
    case Deliver(n, ended) => DeliverKeeps(s, n, ended);
    case FinishUpload =>
      forall r | r in s.readers ensures ReaderOk(Apply(s, a), s.readers[r]) { assert ReaderOk(s, s.readers[r]); }
    case _ => ReaderStepKeeps(s, a);
  }

  lemma {:induction false} RunInv(states: seq<State>, actions: seq<Action>, n: nat)
    requires Run(states, actions) && n < |states|
    ensures Inv(states[n])
  {
    if n > 0 {
      RunInv(states, actions, n - 1);
      StepKeeps(states[n - 1], actions[n - 1]);
      assert states[n - 1 + 1] == Apply(states[n - 1], actions[n - 1]);
    }
  }

  // ---- What a reader gets ---------------------------------------------------------

  /** The bytes from start to end (inclusive), as far as `upTo` bytes exist. */
  function Slice(source: seq<byte>, start: nat, end: int, upTo: nat): seq<byte>
    requires upTo <= |source|
  {
    var stop := Min(end + 1, upTo);
    if start < stop then source[start..stop] else []
  }

  /** At every moment of every run a reader has received a prefix of its range. */
  lemma ReaderGetsPrefix(states: seq<State>, actions: seq<Action>, n: nat, r: nat)
    requires Run(states, actions) && n < |states| && r in states[n].readers
    ensures var s := states[n]; var rd := s.readers[r];
            s.written <= |s.source| && rd.out <= Slice(s.source, rd.start, rd.end, s.written)
  {
    RunInv(states, actions, n);
    assert ReaderOk(states[n], states[n].readers[r]);
  }

  /** A reader that stopped by itself received its whole range, cut to the
      bytes the source delivered before the upload ended. */
  lemma DrainedReaderGotAll(states: seq<State>, actions: seq<Action>, n: nat, r: nat)
    requires Run(states, actions) && n < |states| && r in states[n].readers && states[n].readers[r].status == Drained
    ensures var s := states[n]; var rd := s.readers[r];
            s.written <= |s.source| && rd.out == Slice(s.source, rd.start, rd.end, s.written)
  {
    RunInv(states, actions, n);
    assert ReaderOk(states[n], states[n].readers[r]);
  }

  /** Byte i is asked for, in the file, and was delivered; an end of -1 asks
      for everything from start on. */
  predicate Asked(i: int, size: nat, written: nat, start: nat, end: int) {
    start <= i < size && i < written && (i <= end || end == -1)
  }

  /** Exactly the bytes asked for, in order. */
  ghost predicate IsRange(out: seq<byte>, source: seq<byte>, size: nat, written: nat, start: nat, end: int) {
    && (forall i :: start <= i < start + |out| <==> Asked(i, size, written, start, end))
    && (forall i :: 0 <= i < |out| ==> start + i < |source| && out[i] == source[start + i])
  }

  lemma SliceIsRange(source: seq<byte>, size: nat, written: nat, start: nat, end: int)
    requires written <= |source|
    ensures IsRange(Slice(source, start, ClampEnd(end, size), written), source, size, written, start, end)
  {
  }

  /** A reader's range was fixed when it was opened. */
  lemma {:induction false} RangeStays(states: seq<State>, actions: seq<Action>, m: nat, n: nat, r: nat)
    requires Run(states, actions) && m < n < |states| && actions[m].Open? && actions[m].r == r
    ensures states[n].size == states[m].size && r in states[n].readers
    ensures states[n].readers[r].start == actions[m].start
    ensures states[n].readers[r].end == ClampEnd(actions[m].end, states[n].size)
  {
    assert states[n - 1 + 1] == Apply(states[n - 1], actions[n - 1]);
    if m < n - 1 {
      RangeStays(states, actions, m, n - 1, r);
    }
  }

  /** A Get that stopped by itself delivered exactly the bytes asked for. */
  lemma GetDelivers(states: seq<State>, actions: seq<Action>, m: nat, n: nat, r: nat)
    requires Run(states, actions) && m < n < |states| && actions[m].Open? && actions[m].r == r
    requires r in states[n].readers && states[n].readers[r].status == Drained
    ensures var s := states[n];
            IsRange(s.readers[r].out, s.source, s.size, s.written, actions[m].start, actions[m].end)
  {
    RangeStays(states, actions, m, n, r);
    DrainedReaderGotAll(states, actions, n, r);
    SliceIsRange(states[n].source, states[n].size, states[n].written, actions[m].start, actions[m].end);
  }

  /** Buffered bytes are never overwritten, whatever follows. */
  lemma {:induction false} BufferedStays(states: seq<State>, actions: seq<Action>, m: nat, n: nat, i: nat)
    requires Run(states, actions) && m <= n < |states|
    requires i < states[m].written && i < states[m].size
    ensures states[n].size == states[m].size && i < |states[m].buffer| == |states[n].buffer|
    ensures states[m].written <= states[n].written && states[n].buffer[i] == states[m].buffer[i]
  {
    RunInv(states, actions, m);
    if m < n {
      BufferedStays(states, actions, m, n - 1, i);
      RunInv(states, actions, n - 1);
      assert states[n - 1 + 1] == Apply(states[n - 1], actions[n - 1]);
    }
  }

  /** No reader waits for a finished upload, a chunk always lies inside the
      buffer, and each chunk brings its reader closer to the end. */
  lemma TakeChunkProgress(s: State, r: nat)
    requires Inv(s) && Idle(s, r) && s.readers[r].pos <= s.readers[r].end
    ensures s.finished ==> Enabled(s, TakeChunk(r))
    ensures Enabled(s, TakeChunk(r)) ==>
      var rd, rd' := s.readers[r], Apply(s, TakeChunk(r)).readers[r];
      || (rd'.status == Drained && s.finished)
      || (&& rd'.chunk == Some((rd.pos, rd'.pos)) && 0 <= rd.pos < rd'.pos <= |s.buffer|
          && 0 <= rd'.end + 1 - rd'.pos < rd.end + 1 - rd.pos)
  {
  }

  // ---- The code -------------------------------------------------------------------

  /** What successive src.Read calls return: bytes, and whether an error
      (io.EOF included) came with them. After the list, (0, io.EOF). */
  datatype Read = Read(data: seq<byte>, ended: bool)

  /** Everything the first k reads delivered. */
  function Delivered(results: seq<Read>, k: nat): seq<byte>
    requires k <= |results|
  {
    if k == 0 then [] else Delivered(results, k - 1) + results[k - 1].data
  }

  datatype ChunkResult = Wait | Stop | Chunk(lo: nat, hi: nat)

  /** After i reads, the loop of Upload goes on. */
  predicate StillReading(results: seq<Read>, i: nat, size: nat)
    requires i <= |results|
  {
    |Delivered(results, i)| < size && (i > 0 ==> !results[i - 1].ended)
  }

  lemma OverlayExtends(buffer: seq<byte>, delivered: seq<byte>, data: seq<byte>)
    requires |delivered| <= |buffer| && buffer[..|delivered|] == delivered
    ensures var m := Min(|buffer|, |delivered| + |data|);
            Overlay(buffer, |delivered|, data)[..m] == (delivered + data)[..m]
  {
  }

  lemma SamePrefixSameSlice(a: seq<byte>, b: seq<byte>, m: nat, lo: nat, hi: nat)
    requires lo <= hi <= m <= |a| && m <= |b| && a[..m] == b[..m]
    ensures a[lo..hi] == b[lo..hi]
  {
    assert a[lo..hi] == a[..m][lo..hi] == b[..m][lo..hi] == b[lo..hi];
  }

  class File {
    var buffer: array<byte>
    var size: nat
    var written: nat
    var finished: bool

    constructor ()
      ensures written == 0 && !finished && fresh(buffer)
    {
      buffer := new byte[0];
      size, written, finished := 0, 0, false;
    }

    /** Upload: read until size bytes are buffered or the source ends. k is the
        number of reads it consumed. */
    method Upload(results: seq<Read>, size: nat) returns (ghost k: nat)
      requires written == 0 && !finished
      requires forall i :: 0 <= i < |results| ==> |results[i].data| <= ReadSize
      modifies this
      ensures fresh(buffer) && this.size == size == buffer.Length && finished && k <= |results|
      ensures written == |Delivered(results, k)| < size + ReadSize
      ensures buffer[..Min(size, written)] == Delivered(results, k)[..Min(size, written)]
      ensures written >= size || k == |results| || (k > 0 && results[k - 1].ended)
      ensures forall i :: 0 <= i < k ==> StillReading(results, i, size)
    {
      this.size := size;
      buffer := new byte[size](i => 0);
      var next := 0;
      var over := false;
      while written < size && !over
        invariant fresh(buffer) && this.size == size == buffer.Length && !finished && next <= |results|
        invariant written == |Delivered(results, next)| < size + ReadSize
        invariant buffer[..Min(size, written)] == Delivered(results, next)[..Min(size, written)]
        invariant over ==> next == |results| || (next > 0 && results[next - 1].ended)
        invariant forall i :: 0 <= i < next ==> StillReading(results, i, size)
        invariant !over && next > 0 ==> !results[next - 1].ended
        decreases !over, |results| - next
      {
        if next == |results| {
          over := true;
        } else {
          var r := results[next];
          Append(r.data, Delivered(results, next));
          over := r.ended;
          next := next + 1;
        }
      }
      k := next;
      finished := true;
    }

    /** The locked part of one iteration: delivered is what was read before. */
    method Append(data: seq<byte>, ghost delivered: seq<byte>)
      requires |delivered| == written < buffer.Length && buffer[..written] == delivered
      modifies `written, buffer
      ensures written == old(written) + |data|
      ensures buffer[..Min(buffer.Length, written)] == (delivered + data)[..Min(buffer.Length, written)]
    {
      ghost var before := buffer[..];
      CopyIn(written, data);
      OverlayExtends(before, delivered, data);
      written := written + |data|;
    }

    /** copy(f.buffer[at:], data) */
    method CopyIn(at: nat, data: seq<byte>)
      requires at <= buffer.Length
      modifies buffer
      ensures buffer[..] == Overlay(old(buffer[..]), at, data)
    {
      forall i | 0 <= i < |data| && at + i < buffer.Length {
        buffer[at + i] := data[i];
      }
    }

    /** The locked section of Get for a reader at pos. */
    method NextChunk(rd: Reader) returns (r: ChunkResult)
      requires rd.pos <= rd.end < buffer.Length && 0 <= rd.pos && rd.chunk == None
      ensures r == Wait <==> rd.pos >= written && !finished
      ensures r == Stop <==> rd.pos >= written && finished
      ensures r.Stop? ==> Take(rd, written, buffer.Length) == rd.(status := Drained)
      ensures r.Chunk? ==> r.lo == rd.pos < r.hi <= Min(written, rd.end + 1)
      ensures r.Chunk? ==> Take(rd, written, buffer.Length) == rd.(chunk := Some((r.lo, r.hi)), pos := r.hi)
    {
      if rd.pos >= written && !finished {
        return Wait;
      }
      if rd.pos >= written && finished {
        return Stop;
      }
      var avail := written - rd.pos;
      var remaining := rd.end - rd.pos + 1;
      var toWrite := avail;
      if remaining < toWrite {
        toWrite := remaining;
      }
      r := Chunk(rd.pos, Min(rd.pos + toWrite, buffer.Length));
    }

    /** Get after the upload has finished: the goroutine's loop never waits. */
    method GetFinished(start: nat, end: int, ghost source: seq<byte>) returns (out: seq<byte>)
      requires finished && buffer.Length == size && written <= |source|
      requires buffer[..Min(size, written)] == source[..Min(size, written)]
      ensures out == Slice(source, start, ClampEnd(end, size), written)
      ensures IsRange(out, source, size, written, start, end)
    {
      SliceIsRange(source, size, written, start, end);
      var rd := Reader(start, ClampEnd(end, size), start, None, [], Running);
      out := [];
      while rd.pos <= rd.end
        invariant rd.start == start && rd.end == ClampEnd(end, size) && rd.chunk == None && start <= rd.pos
        invariant if rd.pos == start then out == []
                  else rd.pos <= Min(rd.end + 1, written) && out == source[start..rd.pos]
        decreases rd.end + 1 - rd.pos
      {
        var r := NextChunk(rd);
        if r.Stop? {
          break;
        }
        SamePrefixSameSlice(buffer[..], source, Min(size, written), r.lo, r.hi);
        assert out + buffer[r.lo..r.hi] == source[start..r.hi];
        out := out + buffer[r.lo..r.hi];
        rd := rd.(pos := r.hi);
      }
    }
  }
}
