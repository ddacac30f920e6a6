/**
 base64.RawURLEncoding (sections 3.2 and 5 of RFC 4648, unpadded), with the
 leniency of Go's decoder: CR and LF are skipped, and the unused low bits of
 the last digit may be anything.
 */
module Base64Url {
  import opened Bytes
  import opened Wrappers

  type Text = seq<byte>

  function Digit(v: nat): (c: byte)
    requires v < 64
  {
    if v < 26 then 65 + v           // A-Z
    else if v < 52 then 97 + v - 26 // a-z
    else if v < 62 then 48 + v - 52 // 0-9
    else if v == 62 then 45         // -
    else 95                         // _
  }

  predicate IsDigit(c: byte) {
    65 <= c <= 90 || 97 <= c <= 122 || 48 <= c <= 57 || c == 45 || c == 95
  }

  function Value(c: byte): (v: nat)
    requires IsDigit(c)
    ensures v < 64 && Digit(v) == c
  {
    if c == 95 then 63
    else if 97 <= c then c - 97 + 26
    else if 65 <= c then c - 65
    else if 48 <= c then c - 48 + 52
    else 62
  }

  const UpperCase := "ABCDEFG" + "HIJKLMN" + "OPQRSTU" + "VWXYZ"
  const LowerCase := "abcdefg" + "hijklmn" + "opqrstu" + "vwxyz"
  const Alphabet := UpperCase + LowerCase + ("01234" + "56789") + "-_"

  lemma LetterAt(v: nat)
    requires v < 26
    ensures |UpperCase| == |LowerCase| == 26
    ensures UpperCase[v] == 'A' + v as char && LowerCase[v] == 'a' + v as char
  {
    if v < 7 {
      assert UpperCase[v] == "ABCDEFG"[v] && LowerCase[v] == "abcdefg"[v];
    } else if v < 14 {
      assert UpperCase[v] == "HIJKLMN"[v - 7] && LowerCase[v] == "hijklmn"[v - 7];
    } else if v < 21 {
      assert UpperCase[v] == "OPQRSTU"[v - 14] && LowerCase[v] == "opqrstu"[v - 14];
    } else {
      assert UpperCase[v] == "VWXYZ"[v - 21] && LowerCase[v] == "vwxyz"[v - 21];
    }
  }

  /** The digits are those of section 5 of RFC 4648, in its order. */
  lemma DigitIs(v: nat)
    requires v < 64
    ensures |Alphabet| == 64 && Digit(v) as char == Alphabet[v]
  {
    LetterAt(if v < 26 then v else if v < 52 then v - 26 else 0);
    if 52 <= v < 57 {
      assert Alphabet[v] == "01234"[v - 52];
    } else if 57 <= v < 62 {
      assert Alphabet[v] == "56789"[v - 57];
    }
  }

  lemma DigitValue(v: nat)
    requires v < 64
    ensures IsDigit(Digit(v)) && Value(Digit(v)) == v
  {
  }

  // ---- Octets and sextets ----------------------------------------------------------

  predicate Six(v: seq<nat>) {
    forall i :: 0 <= i < |v| ==> v[i] < 64
  }

  /** Three octets as four sextets; one or two octets as two or three. */
  function Sextets(x: Text): (v: seq<nat>)
    ensures Six(v)
    decreases |x|
  {
    if |x| == 0 then []
    else
      var x0: int := x[0];
      if |x| == 1 then [x0 / 4, x0 % 4 * 16]
      else
        var x1: int := x[1];
        if |x| == 2 then [x0 / 4, x0 % 4 * 16 + x1 / 16, x1 % 16 * 4]
        else
          var x2: int := x[2];
          [x0 / 4, x0 % 4 * 16 + x1 / 16, x1 % 16 * 4 + x2 / 64, x2 % 64] + Sextets(x[3..])
  }

  /** Four sextets and three octets as one 24-bit number, high bits first. */
  predicate SameGroup(v: seq<nat>, x: Text)
    requires |v| >= 4 && |x| >= 3
  {
    v[0] * 0x4_0000 + v[1] * 0x1000 + v[2] * 64 + v[3] == x[0] as int * 0x1_0000 + x[1] as int * 0x100 + x[2]
  }

  /** The groups from the i-th on are in step. */
  predicate GroupFrom(v: seq<nat>, x: Text, i: nat) {
    4 * i + 4 <= |v| && 3 * i + 3 <= |x| && SameGroup(v[4 * i..], x[3 * i..])
  }

  lemma GroupShift(v: seq<nat>, x: Text, i: nat)
    requires |v| >= 4 && |x| >= 3 && GroupFrom(v[4..], x[3..], i)
    ensures GroupFrom(v, x, i + 1)
  {
    assert v[4..][4 * i..] == v[4 * (i + 1)..] && x[3..][3 * i..] == x[3 * (i + 1)..];
  }

  lemma FirstGroup(x: Text)
    requires |x| >= 3
    ensures |Sextets(x)| >= 4 && Sextets(x)[4..] == Sextets(x[3..]) && SameGroup(Sextets(x), x)
  {
    Group(x[0], x[1], x[2]);
  }

  /** Each full group is the same number in both forms. */
  lemma {:induction false} GroupAt(x: Text, i: nat)
    requires 3 * i + 3 <= |x|
    ensures GroupFrom(Sextets(x), x, i)
    decreases i
  {
    FirstGroup(x);
    if i == 0 {
      assert Sextets(x)[0..] == Sextets(x) && x[0..] == x;
    } else {
      GroupAt(x[3..], i - 1);
      GroupShift(Sextets(x), x, i - 1);
    }
  }

  lemma Group(x0: int, x1: int, x2: int)
    requires 0 <= x0 < 256 && 0 <= x1 < 256 && 0 <= x2 < 256
    ensures x0 / 4 * 0x4_0000 + (x0 % 4 * 16 + x1 / 16) * 0x1000 + (x1 % 16 * 4 + x2 / 64) * 64 + x2 % 64
         == x0 * 0x1_0000 + x1 * 0x100 + x2
  {
  }

  /** One octet over becomes two sextets, two become three, zero-filled on the right. */
  lemma {:induction false} LastGroup(x: Text)
    ensures var v, n, m := Sextets(x), |x|, |Sextets(x)|;
            && (n % 3 == 0 ==> m == n / 3 * 4)
            && (n % 3 == 1 ==> m == n / 3 * 4 + 2 && v[m - 2] * 64 + v[m - 1] == x[n - 1] as int * 16)
            && (n % 3 == 2 ==>
                  && m == n / 3 * 4 + 3
                  && v[m - 3] * 0x1000 + v[m - 2] * 64 + v[m - 1] == (x[n - 2] as int * 0x100 + x[n - 1]) * 4)
    decreases |x|
  {
    if |x| >= 3 {
      LastGroup(x[3..]);
      assert Sextets(x)[4..] == Sextets(x[3..]);
    }
  }

  /** A single sextet left over is an error; the unused bits are dropped. */
  function Octets(v: seq<nat>): Option<Text>
    requires Six(v)
    decreases |v|
  {
    if |v| == 0 then Some([])
    else if |v| == 1 then None
    else if |v| == 2 then Some([v[0] * 4 + v[1] / 16])
    else if |v| == 3 then Some([v[0] * 4 + v[1] / 16, v[1] % 16 * 16 + v[2] / 4])
    else
      match Octets(v[4..])
      case Some(rest) => Some([v[0] * 4 + v[1] / 16, v[1] % 16 * 16 + v[2] / 4, v[2] % 4 * 64 + v[3]] + rest)
      case None => None
  }

  lemma {:induction false} OctetsSextets(x: Text)
    ensures Octets(Sextets(x)) == Some(x)
    decreases |x|
  {
    if |x| >= 3 {
      OctetsSextets(x[3..]);
      ThreeOctets(x);
    } else {
      FewOctets(x);
    }
  }

  /** The first sextets of a text, without their arithmetic. */
  lemma FirstSextets(x: Text)
    requires |x| >= 3
    ensures var v := Sextets(x);
            && |v| >= 4 && v[4..] == Sextets(x[3..])
            && v[0] * 4 + v[1] / 16 == x[0] && v[1] % 16 * 16 + v[2] / 4 == x[1] && v[2] % 4 * 64 + v[3] == x[2]
  {
  }

  lemma ThreeOctets(x: Text)
    requires |x| >= 3 && Octets(Sextets(x[3..])) == Some(x[3..])
    ensures Octets(Sextets(x)) == Some(x)
  {
    FirstSextets(x);
    JoinOctets(Sextets(x), x);
  }

  lemma JoinOctets(v: seq<nat>, x: Text)
    requires Six(v) && |v| >= 4 && |x| >= 3 && Octets(v[4..]) == Some(x[3..])
    requires v[0] * 4 + v[1] / 16 == x[0] && v[1] % 16 * 16 + v[2] / 4 == x[1] && v[2] % 4 * 64 + v[3] == x[2]
    ensures Octets(v) == Some(x)
  {
    assert x == [x[0], x[1], x[2]] + x[3..];
  }

  lemma FewOctets(x: Text)
    requires |x| < 3
    ensures Octets(Sextets(x)) == Some(x)
  {
    if |x| == 2 {
      TwoOctets(x);
    } else if |x| == 1 {
      OneOctet(x);
    }
  }

  lemma OneOctet(x: Text)
    requires |x| == 1
    ensures Octets(Sextets(x)) == Some(x)
  {
    var v := Sextets(x);
    assert |v| == 2 && v[0] * 4 + v[1] / 16 == x[0] by {
      Unpack(x[0], 0, 0, v[0], v[1], 0, 0);
    }
    JoinOne(v, x);
  }

  lemma JoinOne(v: seq<nat>, x: Text)
    requires Six(v) && |v| == 2 && |x| == 1 && v[0] * 4 + v[1] / 16 == x[0]
    ensures Octets(v) == Some(x)
  {
    assert x == [x[0]];
  }

  lemma TwoOctets(x: Text)
    requires |x| == 2
    ensures Octets(Sextets(x)) == Some(x)
  {
    var v := Sextets(x);
    assert |v| == 3;
    assert v[0] * 4 + v[1] / 16 == x[0] && v[1] % 16 * 16 + v[2] / 4 == x[1] by {
      Unpack(x[0], x[1], 0, v[0], v[1], v[2], 0);
    }
    JoinTwo(v, x);
  }

  lemma JoinTwo(v: seq<nat>, x: Text)
    requires Six(v) && |v| == 3 && |x| == 2
    requires v[0] * 4 + v[1] / 16 == x[0] && v[1] % 16 * 16 + v[2] / 4 == x[1]
    ensures Octets(v) == Some(x)
  {
    assert x == [x[0], x[1]];
  }

  lemma Unpack(x0: int, x1: int, x2: int, v0: int, v1: int, v2: int, v3: int)
    requires 0 <= x0 < 256 && 0 <= x1 < 256 && 0 <= x2 < 256
    requires v0 == x0 / 4 && v1 == x0 % 4 * 16 + x1 / 16 && v2 == x1 % 16 * 4 + x2 / 64 && v3 == x2 % 64
    ensures v0 * 4 + v1 / 16 == x0 && v1 % 16 * 16 + v2 / 4 == x1 && v2 % 4 * 64 + v3 == x2
  {
  }

  lemma Repack(v0: int, v1: int, v2: int, v3: int, x0: int, x1: int, x2: int)
    requires 0 <= v0 < 64 && 0 <= v1 < 64 && 0 <= v2 < 64 && 0 <= v3 < 64
    requires x0 == v0 * 4 + v1 / 16 && x1 == v1 % 16 * 16 + v2 / 4 && x2 == v2 % 4 * 64 + v3
    ensures x0 / 4 == v0 && x0 % 4 * 16 + x1 / 16 == v1 && x1 % 16 * 4 + x2 / 64 == v2 && x2 % 64 == v3
    ensures x0 % 4 * 16 == v1 - v1 % 16 && x1 % 16 * 4 == v2 - v2 % 4
  {
  }

  /** The unused low bits of the last sextet are zero. */
  predicate ZeroTail(v: seq<nat>) {
    (|v| % 4 == 2 ==> v[|v| - 1] % 16 == 0) && (|v| % 4 == 3 ==> v[|v| - 1] % 4 == 0)
  }

  lemma {:induction false} SextetsOctets(v: seq<nat>)
    requires Six(v) && Octets(v).Some?
    ensures Sextets(Octets(v).value) == v <==> ZeroTail(v)
    decreases |v|
  {
    if |v| == 0 {
    } else if |v| == 2 {
      TwoSextets(v);
    } else if |v| == 3 {
      ThreeSextets(v);
    } else {
      OneQuantum(v);
      SextetsOctets(v[4..]);
      SameTail(v, Sextets(Octets(v[4..]).value));
    }
  }

  lemma SameTail(v: seq<nat>, rest: seq<nat>)
    requires |v| >= 4
    ensures v[..4] + rest == v <==> rest == v[4..]
    ensures ZeroTail(v) <==> ZeroTail(v[4..])
  {
  }

  lemma TwoSextets(v: seq<nat>)
    requires Six(v) && |v| == 2
    ensures Sextets(Octets(v).value) == v <==> v[1] % 16 == 0
  {
    var x := Octets(v).value;
    assert |x| == 1 && x[0] / 4 == v[0] && x[0] % 4 * 16 == v[1] - v[1] % 16 by {
      Repack(v[0], v[1], 0, 0, x[0], v[1] % 16 * 16, 0);
    }
    SplitOne(x, v);
  }

  lemma SplitOne(x: Text, v: seq<nat>)
    requires |x| == 1 && |v| == 2 && x[0] / 4 == v[0] && x[0] % 4 * 16 == v[1] - v[1] % 16
    ensures Sextets(x) == v <==> v[1] % 16 == 0
  {
  }

  lemma ThreeSextets(v: seq<nat>)
    requires Six(v) && |v| == 3
    ensures Sextets(Octets(v).value) == v <==> v[2] % 4 == 0
  {
    var x := Octets(v).value;
    assert |x| == 2 && x[0] / 4 == v[0] && x[0] % 4 * 16 + x[1] / 16 == v[1] && x[1] % 16 * 4 == v[2] - v[2] % 4 by {
      Repack(v[0], v[1], v[2], 0, x[0], x[1], v[2] % 4 * 64);
    }
    SplitTwo(x, v);
  }

  lemma SplitTwo(x: Text, v: seq<nat>)
    requires |x| == 2 && |v| == 3
    requires x[0] / 4 == v[0] && x[0] % 4 * 16 + x[1] / 16 == v[1] && x[1] % 16 * 4 == v[2] - v[2] % 4
    ensures Sextets(x) == v <==> v[2] % 4 == 0
  {
  }

  lemma OneQuantum(v: seq<nat>)
    requires Six(v) && |v| >= 4 && Octets(v).Some?
    ensures Octets(v[4..]).Some? && Sextets(Octets(v).value) == v[..4] + Sextets(Octets(v[4..]).value)
  {
    var x := Octets(v).value;
    assert |x| >= 3 && x[3..] == Octets(v[4..]).value;
    assert x[0] / 4 == v[0] && x[0] % 4 * 16 + x[1] / 16 == v[1] && x[1] % 16 * 4 + x[2] / 64 == v[2]
           && x[2] % 64 == v[3] by {
      Repack(v[0], v[1], v[2], v[3], x[0], x[1], x[2]);
    }
    SplitThree(x, v);
  }

  lemma SplitThree(x: Text, v: seq<nat>)
    requires |x| >= 3 && |v| >= 4
    requires x[0] / 4 == v[0] && x[0] % 4 * 16 + x[1] / 16 == v[1] && x[1] % 16 * 4 + x[2] / 64 == v[2]
             && x[2] % 64 == v[3]
    ensures Sextets(x) == v[..4] + Sextets(x[3..])
  {
  }

  // ---- Digits ---------------------------------------------------------------------

  function Encode(x: Text): Text {
    seq(|Sextets(x)|, i requires 0 <= i < |Sextets(x)| => Digit(Sextets(x)[i]))
  }

  predicate IsNewline(c: byte) {
    c == 10 || c == 13
  }

  function Strip(y: Text): (r: Text)
    ensures |r| <= |y|
  {
    if y == [] then []
    else if IsNewline(y[0]) then Strip(y[1..])
    else [y[0]] + Strip(y[1..])
  }

  predicate AllDigits(y: Text) {
    forall i :: 0 <= i < |y| ==> IsDigit(y[i])
  }

  function Values(y: Text): (v: seq<nat>)
    requires AllDigits(y)
    ensures |v| == |y| && Six(v)
  {
    seq(|y|, i requires 0 <= i < |y| => Value(y[i]))
  }

  function Decode(y: Text): Option<Text> {
    if AllDigits(Strip(y)) then Octets(Values(Strip(y))) else None
  }

  lemma EncodeIsDigits(x: Text)
    ensures AllDigits(Encode(x)) && Values(Encode(x)) == Sextets(x)
  {
    forall i | 0 <= i < |Sextets(x)| ensures IsDigit(Encode(x)[i]) && Value(Encode(x)[i]) == Sextets(x)[i] {
      DigitValue(Sextets(x)[i]);
    }
  }

  lemma {:induction false} StripDigits(y: Text)
    requires AllDigits(y)
    ensures Strip(y) == y
  {
    if y != [] {
      StripDigits(y[1..]);
    }
  }

  lemma EncodeAt(x: Text, i: nat)
    requires i < |Sextets(x)|
    ensures |Encode(x)| == |Sextets(x)| && Encode(x)[i] as char == Alphabet[Sextets(x)[i]]
  {
    DigitIs(Sextets(x)[i]);
  }

  /** Every text survives the round trip. */
  lemma DecodeEncode(x: Text)
    ensures Decode(Encode(x)) == Some(x)
  {
    EncodeIsDigits(x);
    StripDigits(Encode(x));
    OctetsSextets(x);
  }

  lemma {:induction false} StripFixed(y: Text)
    ensures Strip(y) == y <==> forall i :: 0 <= i < |y| ==> !IsNewline(y[i])
  {
    if y != [] {
      StripFixed(y[1..]);
      if !IsNewline(y[0]) {
        assert forall i :: 1 <= i < |y| ==> y[i] == y[1..][i - 1];
      } else {
        assert |Strip(y)| < |y|;
      }
    }
  }

  /** Which accepted texts are the encoding of what they decode to: exactly
      those without newlines whose unused bits are zero. */
  lemma EncodeDecodeIff(y: Text)
    requires Decode(y).Some?
    ensures Encode(Decode(y).value) == y <==>
      (forall i :: 0 <= i < |y| ==> !IsNewline(y[i])) && ZeroTail(Values(Strip(y)))
  {
    var x, s := Decode(y).value, Strip(y);
    StripFixed(y);
    SextetsOctets(Values(s));
    EncodeIsDigits(x);
    if Encode(x) == y {
      StripDigits(y);
    }
    EncodeOfValues(x, s);
  }

  lemma EncodeOfValues(x: Text, y: Text)
    requires AllDigits(y)
    ensures Sextets(x) == Values(y) ==> Encode(x) == y
  {
  }
}
