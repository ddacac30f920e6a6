/**
 time.Duration(n) * time.Second / time.Duration(rate), the last line of all
 three parsers: an int64 product that wraps, then a truncating division.
 */
module Duration {
  import opened Bytes

  // What a walk over the container finds, and what the parser then answers.

  datatype DurationResult = Got(duration: int) | NotFound | Failed | Panics

  datatype AudioInfo = AudioInfo(duration: int, sizeBytes: nat)
  datatype ParseResult = Parsed(info: AudioInfo) | ParseFailed | ParsePanics

  function Outcome(d: DurationResult, size: nat): ParseResult {
    match d
    case Got(duration) => Parsed(AudioInfo(duration, size))
    case Panics => ParsePanics
    case _ => ParseFailed
  }

  const NanosPerSecond := 1_000_000_000
  const MaxExactSamples := 9223372036  // floor((2^63 - 1) / 10^9)

  function GoDuration(n: int, rate: int): int
    requires rate > 0
  {
    TruncDiv(ToInt64(ToInt64(n) * NanosPerSecond), rate)
  }

  /** The time the samples really take, rounded down. */
  function Exact(n: nat, rate: int): int
    requires rate > 0
  {
    n * NanosPerSecond / rate
  }

  lemma WrapOnce(n: int)
    ensures ToInt64(ToInt64(n) * NanosPerSecond) == ToInt64(n * NanosPerSecond)
  {
    var q := (n + TwoTo63) / TwoTo64;
    assert ToInt64(n) == n - TwoTo64 * q;
    WrapMultiple(n * NanosPerSecond, q * NanosPerSecond);
  }

  lemma WrapMultiple(x: int, m: int)
    ensures ToInt64(x - TwoTo64 * m) == ToInt64(x)
  {
  }

  /** A quotient of something at least 2^64 smaller is smaller, for 32-bit rates. */
  lemma FarApart(p: nat, w: int, rate: int)
    requires 0 < rate < TwoTo32 && w + TwoTo64 <= p
    ensures TruncDiv(w, rate) < p / rate
  {
    var t := TruncDiv(w, rate);
    assert t * rate < w + rate;
    assert (t + 1) * rate <= p;
    QuotientAtLeast(p, t + 1, rate);
  }

  lemma QuotientAtLeast(p: nat, t: int, rate: int)
    requires rate > 0 && t * rate <= p
    ensures t <= p / rate
  {
    var q := p / rate;
    assert p == q * rate + p % rate;
    assert q < t ==> (q + 1) * rate <= t * rate;
  }

  /** The duration is exact for precisely the counts up to 9223372036,
      whatever the rate; beyond it the product has wrapped and shows. */
  lemma DurationExactIff(n: nat, rate: int)
    requires 0 < rate < TwoTo32
    ensures GoDuration(n, rate) == n * 1_000_000_000 / rate <==> n <= 9223372036
    ensures Exact(n, rate) == n * 1_000_000_000 / rate
  {
    var p := n * NanosPerSecond;
    WrapOnce(n);
    if n > MaxExactSamples {
      var m := (p + TwoTo63) / TwoTo64;
      assert m >= 1 && ToInt64(p) == p - TwoTo64 * m;
      FarApart(p, ToInt64(p), rate);
    } else {
      assert ToInt64(p) == p;
    }
  }
}
