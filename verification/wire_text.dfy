/**
 The texts that go over the wire, by their grammars: Base64 letter by letter, percent
 escapes, timeouts, and how metadata is carried.
*/
module WireText {
  import opened Bytes
  import opened Metadata
  import Base64
  import Percent
  import Timeout

  // ----- Base64 -----

  function Range(first: char, count: nat): string
    requires first as int + count <= 0x80
  {
    seq(count, i requires 0 <= i < count => (first as int + i) as char)
  }

  /** Table 1 of RFC 4648. */
  function Alphabet(): (s: string)
    ensures |s| == 64
  {
    Range('A', 26) + Range('a', 26) + Range('0', 10) + "+/"
  }

  function OctetOr0(x: bytes, i: nat): nat {
    if i < |x| then x[i] else 0
  }

  /** Bits 6k to 6k + 5 of `x` read as one bit string, with zeros behind it. */
  function BitsAt(x: bytes, k: nat): nat {
    var first, offset := 6 * k / 8, 6 * k % 8;
    var two: nat := OctetOr0(x, first) * 0x100 + OctetOr0(x, first + 1);
    two / (if offset == 0 then 0x400 else if offset == 6 then 0x10 else if offset == 4 then 0x40 else 0x100) % 64
  }

  predicate IsTextOf(text: bytes, x: bytes) {
    |text| == (4 * |x| + 2) / 3 && forall k | 0 <= k < |text| :: text[k] as char == Alphabet()[BitsAt(x, k)]
  }

  lemma LetterIsStandard(v: Base64.sextet)
    ensures Base64.Letter(v) as char == Alphabet()[v]
  {}

  lemma {:induction false} SplitAt(x: bytes, k: nat)
    requires k < |Base64.Split(x)|
    ensures Base64.Split(x)[k] == BitsAt(x, k)
    decreases |x|
  {
    if |x| > 2 {
      FirstGroup(x);
      if k >= 4 {
        SplitAt(x[3..], k - 4);
        LaterGroup(x, k - 4);
      }
    } else {
      LastGroup(x);
    }
  }

  lemma FirstGroup(x: bytes)
    requires |x| > 2
    ensures var vs := Base64.Split(x);
            && |vs| == 4 + |Base64.Split(x[3..])|
            && vs[0] == BitsAt(x, 0) && vs[1] == BitsAt(x, 1) && vs[2] == BitsAt(x, 2) && vs[3] == BitsAt(x, 3)
            && forall k | 4 <= k < |vs| :: vs[k] == Base64.Split(x[3..])[k - 4]
  {
    FirstBits(x);
    ThirdBits(x);
    FourthBits(x);
  }

  lemma LastGroup(x: bytes)
    requires 0 < |x| <= 2
    ensures forall k | 0 <= k < |Base64.Split(x)| :: Base64.Split(x)[k] == BitsAt(x, k)
  {
    AtStart(x[0], OctetOr0(x, 1));
    AtSix(x[0], OctetOr0(x, 1));
    AtFour(OctetOr0(x, 1), 0);
  }

  lemma FirstBits(x: bytes)
    requires |x| > 1
    ensures BitsAt(x, 0) == x[0] / 4 && BitsAt(x, 1) == x[0] % 4 * 16 + x[1] / 16
  {
    AtStart(x[0], x[1]);
    AtSix(x[0], x[1]);
  }

  lemma ThirdBits(x: bytes)
    requires |x| > 2
    ensures BitsAt(x, 2) == x[1] % 16 * 4 + x[2] / 64
  {
    AtFour(x[1], x[2]);
  }

  lemma FourthBits(x: bytes)
    requires |x| > 2
    ensures BitsAt(x, 3) == x[2] % 64
  {
    AtTwo(x[2], OctetOr0(x, 3));
  }

  lemma LaterGroup(x: bytes, k: nat)
    requires |x| > 2
    ensures BitsAt(x, k + 4) == BitsAt(x[3..], k)
  {
    assert 6 * (k + 4) / 8 == 6 * k / 8 + 3 && 6 * (k + 4) % 8 == 6 * k % 8;
  }

  /** The sextet that starts in the first of two octets, at each of its four places. */
  lemma AtStart(a: nat, b: nat)
    requires a < 0x100 && b < 0x100
    ensures (a * 0x100 + b) / 0x400 % 64 == a / 4
  {}

  lemma AtSix(a: nat, b: nat)
    requires a < 0x100 && b < 0x100
    ensures (a * 0x100 + b) / 0x10 % 64 == a % 4 * 16 + b / 16
  {
    assert (a * 0x100 + b) / 0x10 == a * 16 + b / 16;
    assert a * 16 == a / 4 * 64 + a % 4 * 16;
  }

  lemma AtFour(a: nat, b: nat)
    requires a < 0x100 && b < 0x100
    ensures (a * 0x100 + b) / 0x40 % 64 == a % 16 * 4 + b / 64
  {
    assert (a * 0x100 + b) / 0x40 == a * 4 + b / 64;
    assert a * 4 == a / 16 * 64 + a % 16 * 4;
  }

  lemma AtTwo(a: nat, b: nat)
    requires a < 0x100 && b < 0x100
    ensures (a * 0x100 + b) / 0x100 % 64 == a % 64
  {}

  /** An encoding is the unpadded text of section 4 of RFC 4648, letter by letter. */
  lemma EncodedIsText(x: bytes)
    ensures IsTextOf(Base64.Encoded(x), x)
  {
    var text := Base64.Encoded(x);
    forall k | 0 <= k < |text| ensures text[k] as char == Alphabet()[BitsAt(x, k)] {
      SplitAt(x, k);
      LetterIsStandard(Base64.Split(x)[k]);
    }
    Base64.EncodedShape(x);
  }

  // ----- Percent escapes -----

  /** `c` is the hexadecimal digit for `v`, in either case. */
  predicate Denotes(c: byte, v: int) {
    && 0 <= v < 16
    && if v < 10 then c == '0' as int + v else c == 'a' as int + (v - 10) || IsUpper(c, v)
  }

  predicate IsUpper(c: byte, v: int) {
    c == 'A' as int + (v - 10)
  }

  lemma ValueIsDenoted(c: byte, v: int)
    ensures Denotes(c, v) <==> Percent.HexValue(c) == v && v >= 0
  {}

  /**
   A percent sign and two hexadecimal digits, in either case each, decode to the octet
   they denote; a percent sign before anything else stands for itself. What is not safe is
   escaped with upper-case digits.
  */
  lemma EscapeDenotes(a: byte, b: byte, hi: int, lo: int, tail: bytes)
    ensures Denotes(a, hi) && Denotes(b, lo) ==> Percent.Decoded([37, a, b] + tail) == [hi * 16 + lo] + Percent.Decoded(tail)
    ensures (forall v :: !Denotes(a, v)) || (forall v :: !Denotes(b, v))
            ==> Percent.Decoded([37, a, b] + tail) == [37] + Percent.Decoded([a, b] + tail)
    ensures 0 <= hi < 16 && 0 <= lo < 16 && !(0x21 <= hi * 16 + lo <= 0x7E && hi * 16 + lo != 37)
            ==> var e := Percent.Encoded([hi * 16 + lo]);
                && |e| == 3 && e[0] == 37 && Denotes(e[1], hi) && Denotes(e[2], lo)
                && (hi >= 10 ==> IsUpper(e[1], hi)) && (lo >= 10 ==> IsUpper(e[2], lo))
  {
    var s := [37, a, b] + tail;
    assert s[3..] == tail && s[1..] == [a, b] + tail;
    ValueIsDenoted(a, hi);
    ValueIsDenoted(b, lo);
    ValueIsDenoted(a, Percent.HexValue(a));
    ValueIsDenoted(b, Percent.HexValue(b));
    if 0 <= hi < 16 && 0 <= lo < 16 {
      var c: byte := hi * 16 + lo;
      assert [c][1..] == [] && c / 16 == hi && c % 16 == lo;
      assert Percent.Unit(c) + [] == Percent.Unit(c);
    }
  }

  // ----- Timeouts -----

  /** The number that decimal digits denote, leading zeros allowed. */
  function Decimal(s: string): nat
    requires Timeout.AllDigits(s)
  {
    if s == "" then 0 else (s[0] as int - 48) * Timeout.Pow10(|s| - 1) + Decimal(s[1..])
  }

  lemma {:induction false} NumberIsDecimal(s: string)
    requires Timeout.AllDigits(s)
    ensures Timeout.Number(s) == Decimal(s)
  {
    if |s| == 1 {
      assert s[..0] == "" && s[1..] == "";
      assert Timeout.Pow10(0) == 1;
    } else if s != "" {
      var front, mid, last := s[..|s| - 1], s[1..][..|s| - 2], s[|s| - 1] as int - 48;
      NumberIsDecimal(front);
      NumberIsDecimal(s[1..]);
      NumberIsDecimal(mid);
      assert front[1..] == mid && Timeout.Number(s[1..]) == Timeout.Number(mid) * 10 + last;
      assert Timeout.Pow10(|s| - 1) == 10 * Timeout.Pow10(|s| - 2);
      TimesTen(s[0] as int - 48, Timeout.Pow10(|s| - 2));
    }
  }

  lemma TimesTen(a: nat, b: nat)
    ensures a * (10 * b) == (a * b) * 10
  {}

  /** Hours, minutes, seconds, milliseconds, microseconds, nanoseconds. */
  const UNITS: map<char, nat> :=
    map['H' := 3_600_000_000_000, 'M' := 60_000_000_000, 'S' := 1_000_000_000, 'm' := 1_000_000, 'u' := 1_000, 'n' := 1]

  /** `s` is one to eight digits and a unit, and `n` that many nanoseconds, within a signed 64-bit count. */
  predicate IsTimeout(s: string, n: nat) {
    && 2 <= |s| <= 9 && Timeout.AllDigits(s[..|s| - 1]) && n <= 0x7FFF_FFFF_FFFF_FFFF
    && s[|s| - 1] in UNITS && n == Decimal(s[..|s| - 1]) * UNITS[s[|s| - 1]]
  }

  /** A header value parses, and to `n`, exactly when it is a timeout of `n`, however it is written. */
  lemma ParsedIsTimeout(s: string, n: nat)
    ensures Timeout.Parsed(s) == Some(n) <==> IsTimeout(s, n)
  {
    if s != "" && Timeout.AllDigits(s[..|s| - 1]) {
      var digits, symbol := s[..|s| - 1], Timeout.UnitOf(s[|s| - 1]);
      NumberIsDecimal(digits);
      if symbol.Some? {
        var u := Timeout.NsPer(symbol.value);
        assert s[|s| - 1] in UNITS && UNITS[s[|s| - 1]] == u;
        WithinQuotient(Timeout.Number(digits), u);
      }
    }
  }

  lemma WithinQuotient(val: nat, u: nat)
    requires u > 0
    ensures val <= Timeout.MAX_NS / u <==> val * u <= Timeout.MAX_NS
  {
    var q, r := Timeout.MAX_NS / u, Timeout.MAX_NS % u;
    assert Timeout.MAX_NS == q * u + r;
    Timeout.Compare(val, q, u);
    Timeout.Compare(q + 1, val, u);
  }

  // ----- Metadata -----

  /** `h` carries `e` over the wire: as unpadded Base64 text if the key is something and then "-bin", else as it is. */
  ghost predicate Carries(h: Entry, e: Entry) {
    && h.key == e.key
    && if exists stem: string :: stem != "" && e.key == stem + "-bin" then IsTextOf(h.value, e.value)
       else h.value == e.value
  }

  lemma WireCarries(e: Entry)
    ensures Carries(ToWire(e), e)
  {
    BinaryKeyHasStem(e.key);
    EncodedIsText(e.value);
  }

  lemma BinaryKeyHasStem(key: string)
    ensures IsBinaryKey(key) <==> exists stem: string :: stem != "" && key == stem + "-bin"
  {
    if IsBinaryKey(key) {
      assert key == key[..|key| - 4] + "-bin";
    }
    if exists stem: string :: stem != "" && key == stem + "-bin" {
      var stem: string :| stem != "" && key == stem + "-bin";
      assert key[|key| - 4..] == "-bin";
    }
  }

  /** The header block has what it had before and one entry for each sendable one, in the form that carries it. */
  lemma {:induction false} HeadersCarry(md: seq<Entry>, before: seq<Entry>) returns (wired: seq<Entry>)
    ensures |wired| == |Sent(md)| && forall i | 0 <= i < |wired| :: Carries(wired[i], Sent(md)[i])
    ensures multiset(AddHeaders(md, before)) == multiset(before) + multiset(wired)
  {
    if md == [] {
      wired := [];
    } else if !Sendable(md[0].key) {
      wired := HeadersCarry(md[1..], before);
      assert Sent(md) == Sent(md[1..]);
    } else {
      var h := ToWire(md[0]);
      WireCarries(md[0]);
      EmplaceAddsOne(before, h);
      var rest := HeadersCarry(md[1..], Emplace(before, h));
      wired := OneMoreCarried(md[0], h, Sent(md[1..]), rest);
      assert AddHeaders(md, before) == AddHeaders(md[1..], Emplace(before, h));
    }
  }

  lemma OneMoreCarried(e: Entry, h: Entry, sent: seq<Entry>, rest: seq<Entry>) returns (wired: seq<Entry>)
    requires Carries(h, e) && |rest| == |sent| && forall i | 0 <= i < |rest| :: Carries(rest[i], sent[i])
    ensures |wired| == 1 + |sent| && forall i | 0 <= i < |wired| :: Carries(wired[i], ([e] + sent)[i])
    ensures multiset(wired) == multiset{h} + multiset(rest)
  {
    wired := [h] + rest;
  }

  predicate KeyChar(c: char) {
    c in Range('a', 26) || c in Range('0', 10) || c == '-' || c == '_'
  }

  /**
   What may be received and what may be sent differ in one family: keys under "grpc-"
   that the program does not know are shown to the application, which may not send them.
   Everything else over the key alphabet, but for two names, may be both.
  */
  lemma SeenButNotSendable(key: string)
    ensures Sendable(key) ==> Visible(key)
    ensures Visible(key) ==> key != "" && forall i | 0 <= i < |key| :: KeyChar(key[i])
    ensures (Visible(key) && !Sendable(key)) <==>
            (IsValidKey(key) && "grpc-" <= key
             && key !in ["grpc-status", "grpc-message", "grpc-status-details-bin", "grpc-encoding", "grpc-accept-encoding", "grpc-timeout"])
    ensures key != "" && (forall i | 0 <= i < |key| :: KeyChar(key[i]))
            ==> IsValidKey(key) && (Sendable(key) || "grpc-" <= key || key in ["content-type", "te"])
  {
    if Sendable(key) {
      SendableIsVisible(key);
    }
    RangeHolds('a', 26);
    RangeHolds('0', 10);
    var name, prefix := "content-type", "grpc-";
    assert name[0] != prefix[0] && |"te"| < |prefix|;
    assert ":" <= key ==> key[0] == ':';
  }

  lemma RangeHolds(first: char, count: nat)
    requires first as int + count <= 0x80
    ensures forall c: char :: c in Range(first, count) <==> first as int <= c as int < first as int + count
  {
    forall c: char | first as int <= c as int < first as int + count ensures c in Range(first, count) {
      assert Range(first, count)[c as int - first as int] == c;
    }
  }
}
