/** Percent-encoding of the grpc-message trailer (include/rpcpio/metadata.h). */
module Percent {
  import opened Bytes

  const PERCENT: byte := 37

  function HexDigit(n: nat): byte
    requires n < 16
  {
    if n < 10 then 48 + n else 65 + (n - 10)
  }

  function HexValue(c: byte): (v: int)
    ensures -1 <= v < 16
  {
    if 48 <= c <= 57 then c - 48
    else if 97 <= c <= 102 then c - 97 + 10
    else if 65 <= c <= 70 then c - 65 + 10
    else -1
  }

  predicate Safe(c: byte) {
    0x21 <= c <= 0x7E && c != PERCENT
  }

  function Unit(c: byte): bytes {
    if Safe(c) then [c] else [PERCENT, HexDigit(c / 16), HexDigit(c % 16)]
  }

  function Encoded(s: bytes): bytes {
    if s == [] then [] else Unit(s[0]) + Encoded(s[1..])
  }

  /** A percent sign followed by two hexadecimal digits. */
  predicate IsEscape(s: bytes) {
    |s| > 2 && s[0] == PERCENT && HexValue(s[1]) >= 0 && HexValue(s[2]) >= 0
  }

  function Decoded(s: bytes): bytes {
    if s == [] then []
    else if IsEscape(s) then [HexValue(s[1]) * 16 + HexValue(s[2])] + Decoded(s[3..])
    else [s[0]] + Decoded(s[1..])
  }

  method PercentEncode(utf8: bytes) returns (out: bytes)
    ensures out == Encoded(utf8)
  {
    out := [];
    var i := 0;
    while i < |utf8|
      invariant i <= |utf8|
      invariant Encoded(utf8) == out + Encoded(utf8[i..])
    {
      var c := utf8[i];
      assert utf8[i..][1..] == utf8[i + 1..];
      var unit;
      if c >= 0x21 && c <= 0x7E && c != PERCENT {
        unit := [c];
      } else {
        unit := [PERCENT, HexDigit(c / 16), HexDigit(c % 16)];
      }
      assert unit == Unit(c);
      out := out + unit;
      i := i + 1;
    }
  }

  method PercentDecode(encoded: bytes) returns (out: bytes)
    ensures out == Decoded(encoded)
  {
    out := [];
    var i := 0;
    while i < |encoded|
      invariant i <= |encoded|
      invariant Decoded(encoded) == out + Decoded(encoded[i..])
    {
      ghost var rest := encoded[i..];
      assert rest[1..] == encoded[i + 1..];
      if encoded[i] == PERCENT && i + 2 < |encoded| {
        var hi, lo := HexValue(encoded[i + 1]), HexValue(encoded[i + 2]);
        if hi >= 0 && lo >= 0 {
          assert rest[3..] == encoded[i + 3..];
          out := out + [hi * 16 + lo];
          i := i + 3;
          continue;
        }
      }
      out := out + [encoded[i]];
      i := i + 1;
    }
  }

  lemma UnitDecodes(c: byte, tail: bytes)
    ensures Decoded(Unit(c) + tail) == [c] + Decoded(tail)
  {
    var s := Unit(c) + tail;
    if Safe(c) {
      assert s[1..] == tail;
    } else {
      assert HexValue(HexDigit(c / 16)) == c / 16 && HexValue(HexDigit(c % 16)) == c % 16;
      assert s[3..] == tail;
    }
  }

  lemma {:induction false} RoundTrip(s: bytes)
    ensures Decoded(Encoded(s)) == s
  {
    if s != [] {
      UnitDecodes(s[0], Encoded(s[1..]));
      RoundTrip(s[1..]);
    }
  }

  lemma {:induction false} EncodedIsPrintable(s: bytes)
    ensures forall i | 0 <= i < |Encoded(s)| :: 0x21 <= Encoded(s)[i] <= 0x7E
  {
    if s != [] {
      EncodedIsPrintable(s[1..]);
    }
  }

  predicate HasEscape(s: bytes) {
    s != [] && (IsEscape(s) || HasEscape(s[1..]))
  }

  /** Decoding never lengthens, and changes a string exactly when it holds a well-formed escape. */
  lemma {:induction false} DecodedLength(s: bytes)
    ensures |Decoded(s)| <= |s|
    ensures Decoded(s) == s <==> !HasEscape(s)
    ensures HasEscape(s) ==> |Decoded(s)| < |s|
    decreases |s|
  {
    if s != [] {
      DecodedLength(if IsEscape(s) then s[3..] else s[1..]);
    }
  }
}
