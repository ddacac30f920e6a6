/** The pieces of Go's strings and strconv that the state and id codecs use. */
module Strings {
  import opened Bytes
  import opened Wrappers

  type Text = seq<byte>

  predicate HasPrefix(s: Text, prefix: Text) {
    |prefix| <= |s| && s[..|prefix|] == prefix
  }

  /** strings.CutPrefix */
  function CutPrefix(s: Text, prefix: Text): Option<Text> {
    if HasPrefix(s, prefix) then Some(s[|prefix|..]) else None
  }

  /** strings.Cut at the first separator. */
  function Cut(s: Text, sep: byte): (r: Option<(Text, Text)>)
    ensures r.Some? ==> s == r.value.0 + [sep] + r.value.1 && sep !in r.value.0
    ensures r.None? <==> sep !in s
  {
    if s == [] then None
    else if s[0] == sep then Some(([], s[1..]))
    else
      match Cut(s[1..], sep)
      case Some((before, after)) => Some(([s[0]] + before, after))
      case None => None
  }

  lemma {:induction false} CutAt(before: Text, sep: byte, after: Text)
    requires sep !in before
    ensures Cut(before + [sep] + after, sep) == Some((before, after))
  {
    var s := before + [sep] + after;
    if before != [] {
      assert s[1..] == before[1..] + [sep] + after;
      assert sep !in before[1..];
      CutAt(before[1..], sep, after);
      assert before == [before[0]] + before[1..];
    }
  }

  /** What follows the first separator does not matter to what precedes it. */
  lemma {:induction false} CutEarly(s: Text, sep: byte, more: Text)
    requires sep in s
    ensures Cut(s, sep).Some? && Cut(s + more, sep).Some? && Cut(s + more, sep).value.0 == Cut(s, sep).value.0
  {
    if s[0] != sep {
      assert (s + more)[1..] == s[1..] + more;
      CutEarly(s[1..], sep, more);
    }
  }

  const Zero := 48
  const Minus := 45
  const Plus := 43

  predicate IsDecimal(c: byte) {
    Zero <= c < Zero + 10
  }

  function FormatNat(n: nat): (s: Text)
    ensures s != [] && forall i :: 0 <= i < |s| ==> IsDecimal(s[i])
  {
    if n < 10 then [Zero + n] else FormatNat(n / 10) + [Zero + n % 10]
  }

  /** strconv.FormatInt in base 10 */
  function FormatInt(n: int): Text {
    if n < 0 then [Minus] + FormatNat(-n) else FormatNat(n)
  }

  function ParseNat(s: Text): (n: nat)
    requires forall i :: 0 <= i < |s| ==> IsDecimal(s[i])
  {
    if s == [] then 0
    else
      assert IsDecimal(s[|s| - 1]);
      var last: int := s[|s| - 1];
      ParseNat(s[..|s| - 1]) * 10 + (last - Zero)
  }

  /** strconv.ParseInt in base 10 for 64 bits: an optional sign, at least one
      digit, nothing else, within range. */
  function ParseInt(s: Text): Option<int> {
    var negative := s != [] && s[0] == Minus;
    var digits := if s != [] && (s[0] == Minus || s[0] == Plus) then s[1..] else s;
    if digits == [] || exists i :: 0 <= i < |digits| && !IsDecimal(digits[i]) then None
    else
      var n: int := ParseNat(digits);
      if negative then (if n > TwoTo63 then None else Some(-n))
      else (if n >= TwoTo63 then None else Some(n))
  }

  lemma {:induction false} ParseFormatNat(n: nat)
    ensures ParseNat(FormatNat(n)) == n
  {
    if n >= 10 {
      var s := FormatNat(n);
      assert s[..|s| - 1] == FormatNat(n / 10);
      ParseFormatNat(n / 10);
    }
  }

  /** The number a run of decimal digits stands for, read from the left. */
  function Decimal(s: Text, soFar: int): int {
    if s == [] then soFar else var d: int := s[0]; Decimal(s[1..], soFar * 10 + (d - 48))
  }

  lemma {:induction false} DecimalSnoc(s: Text, c: byte, soFar: int)
    ensures Decimal(s + [c], soFar) == Decimal(s, soFar) * 10 + (c as int - 48)
    decreases |s|
  {
    if s == [] {
      assert (s + [c])[1..] == [];
    } else {
      var d: int := s[0];
      assert (s + [c])[1..] == s[1..] + [c];
      DecimalSnoc(s[1..], c, soFar * 10 + (d - 48));
    }
  }

  /** A number is printed in base ten, without leading zeros. */
  lemma {:induction false} FormatIsDecimal(n: nat)
    ensures Decimal(FormatNat(n), 0) == n
    ensures if n == 0 then FormatNat(n) == [48] else FormatNat(n)[0] != 48
  {
    if n >= 10 {
      FormatIsDecimal(n / 10);
      DecimalSnoc(FormatNat(n / 10), Zero + n % 10, 0);
    } else {
      var s: Text := [Zero + n];
      assert s[1..] == [] && Decimal(s, 0) == Decimal([], n);
    }
  }

  lemma FormatSign(n: int)
    ensures FormatInt(n) == if n < 0 then [45] + FormatNat(0 - n) else FormatNat(n)
  {
  }

  /** Every int64 survives the round trip. */
  lemma ParseFormatInt(n: int)
    requires -TwoTo63 <= n < TwoTo63
    ensures ParseInt(FormatInt(n)) == Some(n)
  {
    var m: int := if n < 0 then -n else n;
    ParseFormatNat(m);
    var s := FormatInt(n);
    if n < 0 {
      assert s[1..] == FormatNat(m);
    } else {
      assert IsDecimal(FormatNat(m)[0]);
    }
  }
}
