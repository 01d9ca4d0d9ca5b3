/**
 Unpadded Base64 (section 4 of RFC 4648), as binary metadata and status details
 use it (include/rpcpio/metadata.h).
*/
module Base64 {
  import opened Bytes

  type sextet = n: int | 0 <= n < 64

  const PAD: byte := 61  // '='
  const WORD := 0x1_0000_0000  // the accumulator's 32 bits

  function Letter(v: sextet): byte {
    if v < 26 then 65 + v
    else if v < 52 then 97 + (v - 26)
    else if v < 62 then 48 + (v - 52)
    else if v == 62 then 43
    else 47
  }

  /** The decoder's table: -1 marks octets outside the alphabet. */
  function Value(c: byte): (v: int)
    ensures -1 <= v < 64
  {
    if 65 <= c <= 90 then c - 65
    else if 97 <= c <= 122 then 26 + (c - 97)
    else if 48 <= c <= 57 then 52 + (c - 48)
    else if c == 43 then 62
    else if c == 47 then 63
    else if c == PAD then 0
    else -1
  }

  lemma LetterValues(v: sextet)
    ensures Letter(v) != PAD && Value(Letter(v)) == v
  {}

  function Letters(vs: seq<sextet>): bytes {
    seq(|vs|, i requires 0 <= i < |vs| => Letter(vs[i]))
  }

  // ----- Reference: octets regrouped into sextets and back -----

  function Split(x: bytes): seq<sextet> {
    if x == [] then []
    else if |x| == 1 then [x[0] / 4, x[0] % 4 * 16]
    else if |x| == 2 then [x[0] / 4, x[0] % 4 * 16 + x[1] / 16, x[1] % 16 * 4]
    else [x[0] / 4, x[0] % 4 * 16 + x[1] / 16, x[1] % 16 * 4 + x[2] / 64, x[2] % 64] + Split(x[3..])
  }

  function Join(vs: seq<sextet>): bytes {
    if |vs| <= 1 then []
    else if |vs| == 2 then [Octet0(vs)]
    else if |vs| == 3 then [Octet0(vs), Octet1(vs)]
    else [Octet0(vs), Octet1(vs), Octet2(vs)] + Join(vs[4..])
  }

  function Octet0(vs: seq<sextet>): byte
    requires |vs| >= 2
  {
    var a: int, b: int := vs[0], vs[1];
    a * 4 + b / 16
  }

  function Octet1(vs: seq<sextet>): byte
    requires |vs| >= 3
  {
    var b: int, c: int := vs[1], vs[2];
    b % 16 * 16 + c / 4
  }

  function Octet2(vs: seq<sextet>): byte
    requires |vs| >= 4
  {
    var c: int, d: int := vs[2], vs[3];
    c % 4 * 64 + d
  }

  lemma {:induction false} JoinOfSplit(x: bytes)
    ensures Join(Split(x)) == x
  {
    if |x| > 2 {
      JoinOfSplit(x[3..]);
      JoinGroup(x[0], x[1], x[2], Split(x[3..]));
      assert x == [x[0], x[1], x[2]] + x[3..];
    }
  }

  lemma JoinGroup(p0: byte, p1: byte, p2: byte, rest: seq<sextet>)
    ensures Join([p0 / 4, p0 % 4 * 16 + p1 / 16, p1 % 16 * 4 + p2 / 64, p2 % 64] + rest) == [p0, p1, p2] + Join(rest)
  {
    var group: seq<sextet> := [p0 / 4, p0 % 4 * 16 + p1 / 16, p1 % 16 * 4 + p2 / 64, p2 % 64];
    assert (group + rest)[4..] == rest;
  }

  function Encoded(x: bytes): bytes {
    Letters(Split(x))
  }

  /** The sextets that a decoder gathers: it stops at padding and skips foreign octets. */
  function Sextets(s: bytes): seq<sextet> {
    if s == [] || s[0] == PAD then []
    else if Value(s[0]) < 0 then Sextets(s[1..])
    else [Value(s[0])] + Sextets(s[1..])
  }

  function Decoded(s: bytes): bytes {
    Join(Sextets(s))
  }

  // ----- The decoder's accumulator, without its 32-bit limit -----

  /** How many bits may wait in the accumulator between sextets. */
  type waiting = b: nat | b == 0 || b == 2 || b == 4 || b == 6

  /** Eight bits of `acc`, above its `low` lowest. */
  function OctetAt(acc: nat, low: waiting): byte {
    var unit := if low == 0 then 1 else if low == 2 then 4 else if low == 4 then 16 else 64;
    acc / unit % 0x100
  }

  /**
   The octets that come out of an unbounded accumulator holding `acc`, of which
   `bits` bits are still to be emitted, when the sextets `vs` are shifted in.
  */
  function Emit(acc: nat, bits: waiting, vs: seq<sextet>): bytes
    decreases |vs|
  {
    if vs == [] then []
    else
      var acc' := acc * 64 + vs[0];
      if bits + 6 >= 8 then [OctetAt(acc', bits - 2)] + Emit(acc', bits - 2, vs[1..])
      else Emit(acc', bits + 6, vs[1..])
  }

  lemma Low8(n: int, high: int, low: int)
    requires n == high * 0x100 + low && 0 <= low < 0x100
    ensures n % 0x100 == low
  {}

  lemma FirstOctet(acc: nat, a: int, b: int)
    requires 0 <= a < 64 && 0 <= b < 64
    ensures OctetAt((acc * 64 + a) * 64 + b, 4) == a * 4 + b / 16
  {
    var n := (acc * 64 + a) * 64 + b;
    assert n == 16 * (acc * 0x100 + (a * 4 + b / 16)) + b % 16;
    Low8(n / 16, acc, a * 4 + b / 16);
  }

  lemma SecondOctet(acc: nat, b: int, c: int)
    requires 0 <= b < 64 && 0 <= c < 64
    ensures OctetAt((acc * 64 + b) * 64 + c, 2) == b % 16 * 16 + c / 4
  {
    var n := (acc * 64 + b) * 64 + c;
    assert n == 4 * ((acc * 4 + b / 16) * 0x100 + (b % 16 * 16 + c / 4)) + c % 4;
    Low8(n / 4, acc * 4 + b / 16, b % 16 * 16 + c / 4);
  }

  lemma ThirdOctet(acc: nat, c: int, d: int)
    requires 0 <= c < 64 && 0 <= d < 64
    ensures OctetAt((acc * 64 + c) * 64 + d, 0) == c % 4 * 64 + d
  {
    var n := (acc * 64 + c) * 64 + d;
    assert n == (acc * 16 + c / 4) * 0x100 + (c % 4 * 64 + d);
    Low8(n, acc * 16 + c / 4, c % 4 * 64 + d);
  }

  /** What already went through the accumulator never shows again. */
  lemma {:induction false} EmitIsJoin(acc: nat, vs: seq<sextet>)
    ensures Emit(acc, 0, vs) == Join(vs)
    decreases |vs|
  {
    if |vs| >= 2 {
      var acc1 := acc * 64 + vs[0];
      var acc2 := acc1 * 64 + vs[1];
      FirstOctet(acc, vs[0], vs[1]);
      assert vs[1..][1..] == vs[2..];
      assert Emit(acc, 0, vs) == Emit(acc1, 6, vs[1..]) == [Octet0(vs)] + Emit(acc2, 4, vs[2..]);
      if |vs| >= 3 {
        var acc3 := acc2 * 64 + vs[2];
        SecondOctet(acc1, vs[1], vs[2]);
        assert vs[2..][1..] == vs[3..];
        assert Emit(acc2, 4, vs[2..]) == [Octet1(vs)] + Emit(acc3, 2, vs[3..]);
        if |vs| >= 4 {
          var acc4 := acc3 * 64 + vs[3];
          ThirdOctet(acc2, vs[2], vs[3]);
          assert vs[3..][1..] == vs[4..];
          assert Emit(acc3, 2, vs[3..]) == [Octet2(vs)] + Emit(acc4, 0, vs[4..]);
          EmitIsJoin(acc4, vs[4..]);
        }
      }
    }
  }

  lemma Live(q: nat, r: nat)
    ensures (q * WORD + r) % 0x100 == r % 0x100
  {
    Low8(q * WORD + r, q * 0x100_0000 + r / 0x100, r % 0x100);
  }

  lemma Live4(q: nat, r: nat)
    ensures (q * WORD + r) / 4 % 0x100 == r / 4 % 0x100
  {
    assert (q * WORD + r) / 4 == q * 0x4000_0000 + r / 4;
    Low8(q * 0x4000_0000 + r / 4, q * 0x40_0000 + r / 4 / 0x100, r / 4 % 0x100);
  }

  lemma Live16(q: nat, r: nat)
    ensures (q * WORD + r) / 16 % 0x100 == r / 16 % 0x100
  {
    assert (q * WORD + r) / 16 == q * 0x1000_0000 + r / 16;
    Low8(q * 0x1000_0000 + r / 16, q * 0x10_0000 + r / 16 / 0x100, r / 16 % 0x100);
  }

  lemma Live64(q: nat, r: nat)
    ensures (q * WORD + r) / 64 % 0x100 == r / 64 % 0x100
  {
    assert (q * WORD + r) / 64 == q * 0x400_0000 + r / 64;
    Low8(q * 0x400_0000 + r / 64, q * 0x4_0000 + r / 64 / 0x100, r / 64 % 0x100);
  }

  /** Dropping all but 32 bits of the accumulator keeps the bits still to be emitted. */
  lemma WrapKeepsLiveBits(acc: nat, low: waiting)
    ensures OctetAt(acc % WORD, low) == OctetAt(acc, low)
  {
    var q, r := acc / WORD, acc % WORD;
    assert acc == q * WORD + r;
    Live(q, r);
    Live4(q, r);
    Live16(q, r);
    Live64(q, r);
  }

  // ----- The program's two functions -----

  lemma EncodedGroup(x: bytes)
    requires |x| > 2
    ensures var p0: int, p1: int, p2: int := x[0], x[1], x[2];
            var v := p0 * 0x1_0000 + p1 * 0x100 + p2;
            Encoded(x) == [Letter(v / 0x4_0000 % 64), Letter(v / 0x1000 % 64), Letter(v / 64 % 64), Letter(v % 64)]
                          + Encoded(x[3..])
  {
    Regroup(x[0], x[1], x[2]);
  }

  lemma EncodedTail(x: bytes)
    requires 0 < |x| <= 2
    ensures var p0: int, p1: int := x[0], if |x| == 2 then x[1] else 0;
            var v := p0 * 0x1_0000 + p1 * 0x100;
            Encoded(x) == [Letter(v / 0x4_0000 % 64), Letter(v / 0x1000 % 64)]
                          + if |x| == 2 then [Letter(v / 64 % 64)] else []
  {
    Regroup(x[0], if |x| == 2 then x[1] else 0, 0);
  }

  method EncodeBase64(data: bytes) returns (out: bytes)
    ensures out == Encoded(data)
  {
    out := [];
    var i := 0;
    while i + 2 < |data|
      invariant i <= |data|
      invariant Encoded(data) == out + Encoded(data[i..])
    {
      var p0: int, p1: int, p2: int := data[i], data[i + 1], data[i + 2];
      var v := p0 * 0x1_0000 + p1 * 0x100 + p2;
      EncodedGroup(data[i..]);
      assert data[i..][3..] == data[i + 3..];
      var group := [Letter(v / 0x4_0000 % 64), Letter(v / 0x1000 % 64), Letter(v / 64 % 64), Letter(v % 64)];
      Assoc(out, group, Encoded(data[i + 3..]));
      out := out + group;
      i := i + 3;
    }
    if i < |data| {
      var p0: int, p1: int := data[i], if i + 1 < |data| then data[i + 1] else 0;
      var v := p0 * 0x1_0000 + p1 * 0x100;
      EncodedTail(data[i..]);
      out := out + [Letter(v / 0x4_0000 % 64), Letter(v / 0x1000 % 64)];
      if i + 1 < |data| {
        out := out + [Letter(v / 64 % 64)];
      }
    }
  }

  lemma Regroup(p0: int, p1: int, p2: int)
    requires 0 <= p0 < 0x100 && 0 <= p1 < 0x100 && 0 <= p2 < 0x100
    ensures var v := p0 * 0x1_0000 + p1 * 0x100 + p2;
            && v / 0x4_0000 % 64 == p0 / 4
            && v / 0x1000 % 64 == p0 % 4 * 16 + p1 / 16
            && v / 64 % 64 == p1 % 16 * 4 + p2 / 64
            && v % 64 == p2 % 64
  {
    var v := p0 * 0x1_0000 + p1 * 0x100 + p2;
    var a, b, c, d := p0 / 4, p0 % 4 * 16 + p1 / 16, p1 % 16 * 4 + p2 / 64, p2 % 64;
    assert v == ((a * 64 + b) * 64 + c) * 64 + d;
    FourDigits(a, b, c, d);
  }

  /** The base-64 digits of a number below 2^24. */
  lemma FourDigits(a: int, b: int, c: int, d: int)
    requires 0 <= a < 64 && 0 <= b < 64 && 0 <= c < 64 && 0 <= d < 64
    ensures var v := ((a * 64 + b) * 64 + c) * 64 + d;
            v / 0x4_0000 % 64 == a && v / 0x1000 % 64 == b && v / 64 % 64 == c && v % 64 == d
  {
    var v := ((a * 64 + b) * 64 + c) * 64 + d;
    assert v / 64 == (a * 64 + b) * 64 + c;
    assert v / 0x1000 == a * 64 + b;
    assert v / 0x4_0000 == a;
  }

  /** `buf` is the program's 32-bit accumulator; `acc` the same without the limit. */
  method DecodeBase64(encoded: bytes) returns (out: bytes)
    ensures out == Decoded(encoded)
  {
    out := [];
    var buf: nat, bits: nat, i: nat := 0, 0, 0;
    ghost var acc: nat, all := 0, Decoded(encoded);
    EmitIsJoin(0, Sextets(encoded));
    assert encoded[0..] == encoded;
    while i < |encoded|
      invariant i <= |encoded| && buf == acc % WORD
      invariant bits == 0 || bits == 2 || bits == 4 || bits == 6
      invariant all == out + Emit(acc, bits, Sextets(encoded[i..]))
    {
      var c := encoded[i];
      assert encoded[i..][1..] == encoded[i + 1..];
      if c == PAD {
        return;
      }
      var v := Value(c);
      i := i + 1;
      if v >= 0 {
        var emitted;
        buf, bits, emitted := ShiftIn(acc, buf, bits, v, Sextets(encoded[i..]));
        acc := acc * 64 + v;
        out := out + emitted;
      }
    }
  }

  /** The body of the decoding loop for an alphabet octet; `vs` are the sextets still to come. */
  method ShiftIn(ghost acc: nat, buf: nat, bits: nat, v: sextet, ghost vs: seq<sextet>)
    returns (buf': nat, bits': nat, emitted: bytes)
    requires buf == acc % WORD && (bits == 0 || bits == 2 || bits == 4 || bits == 6)
    ensures buf' == (acc * 64 + v) % WORD && (bits' == 0 || bits' == 2 || bits' == 4 || bits' == 6)
    ensures Emit(acc, bits, [v] + vs) == emitted + Emit(acc * 64 + v, bits', vs)
  {
    ShiftWraps(acc, v);
    assert ([v] + vs)[1..] == vs;
    buf' := buf * 64 % WORD + v;
    bits', emitted := bits + 6, [];
    if bits' >= 8 {
      bits' := bits' - 8;
      WrapKeepsLiveBits(acc * 64 + v, bits');
      emitted := [OctetAt(buf', bits')];
    }
  }

  lemma ShiftWraps(acc: nat, v: int)
    requires 0 <= v < 64
    ensures (acc * 64 + v) % WORD == (acc % WORD) * 64 % WORD + v
  {
    var q, r := acc / WORD, acc % WORD;
    var k, t := r / 0x400_0000, r % 0x400_0000;  // the bits shifted out, and those kept
    assert r * 64 == k * WORD + t * 64;
    assert acc * 64 + v == (q * 64 + k) * WORD + (t * 64 + v);
    assert 0 <= t * 64 + v < WORD;
  }

  // ----- What the two amount to together -----

  lemma {:induction false} SextetsOfLetters(vs: seq<sextet>, tail: bytes)
    ensures Sextets(Letters(vs) + tail) == vs + Sextets(tail)
  {
    if vs == [] {
      assert Letters(vs) + tail == tail;
    } else {
      LetterValues(vs[0]);
      SextetsOfLetters(vs[1..], tail);
      assert (Letters(vs) + tail)[1..] == Letters(vs[1..]) + tail;
    }
  }

  lemma RoundTrip(x: bytes)
    ensures Decoded(Encoded(x)) == x
  {
    SextetsOfLetters(Split(x), []);
    assert Encoded(x) + [] == Encoded(x) && Split(x) + [] == Split(x);
    JoinOfSplit(x);
  }

  /** The alphabet octets before any padding: all that a decoder looks at. */
  function Significant(s: bytes): bytes {
    if s == [] || s[0] == PAD then []
    else (if Value(s[0]) < 0 then [] else [s[0]]) + Significant(s[1..])
  }

  /** Padding, anything after it, and foreign octets anywhere, do not disturb the round trip. */
  lemma RoundTripWithNoise(x: bytes, s: bytes)
    requires Significant(s) == Encoded(x)
    ensures Decoded(s) == x
  {
    SextetsOfSignificant(s);
    RoundTrip(x);
  }

  lemma {:induction false} SextetsOfSignificant(s: bytes)
    ensures Sextets(Significant(s)) == Sextets(s)
  {
    if s != [] && s[0] != PAD {
      SextetsOfSignificant(s[1..]);
      if Value(s[0]) >= 0 {
        assert Significant(s) == [s[0]] + Significant(s[1..]);
      } else {
        assert Significant(s) == Significant(s[1..]);
      }
    }
  }

  /** Only alphabet octets come out, none of them padding, four for every three octets in. */
  lemma {:induction false} EncodedShape(x: bytes)
    ensures forall i | 0 <= i < |Encoded(x)| :: Encoded(x)[i] != PAD && Value(Encoded(x)[i]) >= 0
    ensures |Encoded(x)| == (4 * |x| + 2) / 3
  {
    forall i | 0 <= i < |Split(x)| ensures Letter(Split(x)[i]) != PAD && Value(Letter(Split(x)[i])) >= 0 {
      LetterValues(Split(x)[i]);
    }
    if |x| > 2 {
      EncodedShape(x[3..]);
    }
  }
}
