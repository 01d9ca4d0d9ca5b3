/** The grpc-timeout header (src/protocol/timeout.cc, timeout.h). Durations are nanoseconds. */
module Timeout {
  import opened Bytes

  const MAX_DIGITS := 8
  const MAX_VALUE := 99999999
  const MAX_NS := 0x7FFF_FFFF_FFFF_FFFF
  const TWO_64 := 0x1_0000_0000_0000_0000
  const HOUR := 3_600_000_000_000

  /** The range of a duration's 64-bit count. */
  type duration = d: int | -MAX_NS - 1 <= d <= MAX_NS

  /** The six units, finest first. */
  type unit = i: int | 0 <= i < 6

  function NsPer(i: unit): (ns: nat)
    ensures 1 <= ns <= HOUR
  {
    if i == 0 then 1
    else if i == 1 then 1_000
    else if i == 2 then 1_000_000
    else if i == 3 then 1_000_000_000
    else if i == 4 then 60_000_000_000
    else HOUR
  }

  function Symbol(i: unit): char {
    "numSMH"[i]
  }

  function UnitOf(c: char): Option<unit> {
    match c
    case 'H' => Some(5)
    case 'M' => Some(4)
    case 'S' => Some(3)
    case 'm' => Some(2)
    case 'u' => Some(1)
    case 'n' => Some(0)
    case _ => None
  }

  // ----- Decimal numbers -----

  function Text(n: nat): string {
    (if n < 10 then "" else Text(n / 10)) + [(n % 10 + 48) as char]
  }

  predicate IsDigit(c: char) {
    '0' <= c <= '9'
  }

  predicate AllDigits(s: string) {
    forall i | 0 <= i < |s| :: IsDigit(s[i])
  }

  function Number(s: string): nat
    requires AllDigits(s)
  {
    if s == "" then 0 else Number(s[..|s| - 1]) * 10 + (s[|s| - 1] as int - 48)
  }

  function Pow10(k: nat): nat {
    if k == 0 then 1 else 10 * Pow10(k - 1)
  }

  lemma NumberAppend(s: string, c: char)
    requires AllDigits(s) && IsDigit(c)
    ensures AllDigits(s + [c]) && Number(s + [c]) == Number(s) * 10 + (c as int - 48)
  {
    var t := s + [c];
    assert t[..|t| - 1] == s && t[|t| - 1] == c;
  }

  lemma {:induction false} NumberOfText(n: nat)
    ensures AllDigits(Text(n)) && Number(Text(n)) == n
  {
    var digit := (n % 10 + 48) as char;
    if n < 10 {
      NumberAppend("", digit);
    } else {
      NumberOfText(n / 10);
      NumberAppend(Text(n / 10), digit);
    }
  }

  lemma {:induction false} LengthOfText(n: nat, k: nat)
    requires k >= 1 && n < Pow10(k)
    ensures 1 <= |Text(n)| <= k
  {
    if n >= 10 {
      assert Pow10(1) == 10 * Pow10(0) == 10;
      LengthOfText(n / 10, k - 1);
    }
  }

  lemma {:induction false} NumberIsSmall(s: string)
    requires AllDigits(s)
    ensures Number(s) < Pow10(|s|)
  {
    if s != "" {
      NumberIsSmall(s[..|s| - 1]);
    }
  }

  lemma Pow10Of8()
    ensures Pow10(8) == MAX_VALUE + 1
    ensures forall k: nat | k <= 8 :: Pow10(k) <= MAX_VALUE + 1
  {
    assert Pow10(0) == 1 && Pow10(1) == 10 && Pow10(2) == 100 && Pow10(3) == 1000 && Pow10(4) == 10000;
    assert Pow10(5) == 100000 && Pow10(6) == 1000000 && Pow10(7) == 10000000;
  }

  // ----- What the two functions compute -----

  function CeilDiv(n: nat, u: nat): nat
    requires u > 0
  {
    (n + u - 1) / u
  }

  predicate Divides(u: nat, n: nat)
    requires u > 0
  {
    n % u == 0
  }

  /** The unit settled on when the search stands at unit `i`. */
  function Choose(ns: nat, i: unit): Option<unit>
    decreases 6 - i
  {
    if CeilDiv(ns, NsPer(i)) > MAX_VALUE || (i < 5 && Divides(NsPer(i + 1), ns)) then
      if i < 5 then Choose(ns, i + 1) else None
    else Some(i)
  }

  function Formatted(d: duration): string {
    if d <= 0 then ""
    else
      match Choose(d, 0)
      case Some(i) => Text(CeilDiv(d, NsPer(i))) + [Symbol(i)]
      case None => Text(MAX_VALUE) + "H"
  }

  function Parsed(s: string): Option<nat> {
    if s == "" then None
    else
      var digits, symbol := s[..|s| - 1], UnitOf(s[|s| - 1]);
      if digits == "" || |digits| > MAX_DIGITS || !AllDigits(digits) || symbol.None? then None
      else if Number(digits) > MAX_NS / NsPer(symbol.value) then None
      else Some(Number(digits) * NsPer(symbol.value))
  }

  method FormatTimeout(d: duration) returns (s: string)
    ensures s == Formatted(d)
  {
    if d <= 0 {
      return "";
    }
    var ns: nat := d;
    var i := 0;
    while i < 6
      invariant 0 <= i <= 6
      invariant Choose(ns, 0) == if i < 6 then Choose(ns, i) else None
    {
      var nsPer := NsPer(i);
      assert ns + nsPer - 1 < TWO_64;  // the sum does not wrap
      var val := (ns + nsPer - 1) / nsPer;
      i := i + 1;
      if val > MAX_VALUE { continue; }
      if i < 6 && ns % NsPer(i) == 0 { continue; }
      return Text(val) + [Symbol(i - 1)];
    }
    return Text(MAX_VALUE) + "H";
  }

  method ParseTimeout(s: string) returns (r: Option<nat>)
    ensures r == Parsed(s)
  {
    if s == "" {
      return None;
    }
    var symbol, digits := s[|s| - 1], s[..|s| - 1];
    if digits == "" || |digits| > MAX_DIGITS {
      return None;
    }
    var val: nat, i: nat := 0, 0;
    while i < |digits|
      invariant i <= |digits| && AllDigits(digits[..i]) && val == Number(digits[..i])
    {
      var c := digits[i];
      if c < '0' || c > '9' {
        return None;
      }
      assert digits[..i + 1][..i] == digits[..i];
      val := val * 10 + (c as int - 48);
      i := i + 1;
    }
    assert digits[..i] == digits;
    var u := UnitOf(symbol);
    if u.None? {
      return None;
    }
    var nsPer := NsPer(u.value);
    if val > MAX_NS / nsPer {
      return None;
    }
    return Some(val * nsPer);
  }

  // ----- The reference: rounding up to the finest unit that fits -----

  /** The finest unit in which a duration needs at most eight digits. */
  function Finest(ns: nat, i: unit): unit
    decreases 6 - i
  {
    if i == 5 || ns <= MAX_VALUE * NsPer(i) then i else Finest(ns, i + 1)
  }

  function RoundedUp(n: nat, u: nat): nat
    requires u > 0
  {
    CeilDiv(n, u) * u
  }

  lemma CeilDivFacts(n: nat, u: nat)
    requires u > 0
    ensures n <= RoundedUp(n, u) < n + u
    ensures Divides(u, n) <==> RoundedUp(n, u) == n
    ensures forall m: nat :: CeilDiv(n, u) <= m <==> n <= m * u
  {
    var q, r := n / u, n % u;
    assert n == q * u + r;
    if r == 0 {
      DivUnique(n + u - 1, u, q, u - 1);
    } else {
      DivUnique(n + u - 1, u, q + 1, r - 1);
    }
    forall m: nat ensures CeilDiv(n, u) <= m <==> n <= m * u {
      Compare(CeilDiv(n, u), m, u);
      if CeilDiv(n, u) > m {
        Compare(m + 1, CeilDiv(n, u), u);
      }
    }
  }

  lemma DivUnique(n: nat, u: nat, q: nat, r: nat)
    requires u > 0 && n == q * u + r && r < u
    ensures n / u == q && n % u == r
  {
    var q', r' := n / u, n % u;
    assert n == q' * u + r';
    if q' < q {
      Compare(q' + 1, q, u);
    } else if q < q' {
      Compare(q + 1, q', u);
    }
  }

  lemma Compare(a: nat, b: nat, u: nat)
    ensures a <= b ==> a * u <= b * u
  {
    if a <= b {
      assert b * u == a * u + (b - a) * u;
    }
  }

  /** Each unit is a whole number, at most a thousand, of the one before. */
  lemma UnitRatio(i: unit)
    requires i < 5
    ensures NsPer(i + 1) == (if i < 3 then 1000 else 60) * NsPer(i)
  {}

  lemma {:induction false} CoarserDivides(i: unit, k: unit, n: nat)
    requires i <= k && Divides(NsPer(k), n)
    ensures Divides(NsPer(i), n)
    decreases k - i
  {
    if i < k {
      CoarserDivides(i + 1, k, n);
      UnitRatio(i);
      var c, u := if i < 3 then 1000 else 60, NsPer(i);
      var q := n / NsPer(i + 1);
      assert n == q * (c * u) == q * c * u;
      DivUnique(n, u, q * c, 0);
    }
  }

  lemma {:induction false} FinestFacts(ns: nat, i: unit)
    requires ns <= MAX_NS
    ensures i <= Finest(ns, i) && ns <= MAX_VALUE * NsPer(Finest(ns, i))
    ensures Finest(ns, i) > i ==> ns > MAX_VALUE * NsPer(Finest(ns, i) - 1)
    ensures forall k: unit | i <= k && ns <= MAX_VALUE * NsPer(k) :: Finest(ns, i) <= k
    decreases 6 - i
  {
    if i < 5 && ns > MAX_VALUE * NsPer(i) {
      FinestFacts(ns, i + 1);
    }
  }

  /**
   The search always settles: on the finest unit that fits, or on a coarser one
   that represents the duration exactly while the next one does not.
  */
  lemma {:induction false} ChooseFacts(ns: nat, i: unit)
    requires 0 < ns <= MAX_NS
    ensures Choose(ns, i).Some?
    ensures var j, f := Choose(ns, i).value, Finest(ns, i);
            && f <= j && CeilDiv(ns, NsPer(j)) <= MAX_VALUE
            && (f < j ==> Divides(NsPer(j), ns))
            && (j < 5 ==> !Divides(NsPer(j + 1), ns))
    decreases 6 - i
  {
    CeilDivFacts(ns, NsPer(i));
    FinestFacts(ns, i);
    if CeilDiv(ns, NsPer(i)) > MAX_VALUE || (i < 5 && Divides(NsPer(i + 1), ns)) {
      assert i < 5;
      ChooseFacts(ns, i + 1);
      FinestFacts(ns, i + 1);
    }
  }

  lemma ParsedText(val: nat, j: unit)
    requires val <= MAX_VALUE
    ensures var s := Text(val) + [Symbol(j)];
            && 2 <= |s| <= MAX_DIGITS + 1
            && Parsed(s) == if val * NsPer(j) > MAX_NS then None else Some(val * NsPer(j))
  {
    var s := Text(val) + [Symbol(j)];
    Pow10Of8();
    LengthOfText(val, 8);
    NumberOfText(val);
    assert s[..|s| - 1] == Text(val) && UnitOf(s[|s| - 1]) == Some(j);
    QuotientBound(val, NsPer(j));
  }

  /** The value on the wire is the duration rounded up to the finest unit that fits. */
  lemma RoundTripValue(d: duration)
    requires d > 0
    ensures var rounded := RoundedUp(d, NsPer(Finest(d, 0)));
            Parsed(Formatted(d)) == if d <= 2562047 * HOUR then Some(rounded) else None
    ensures 2 <= |Formatted(d)| <= MAX_DIGITS + 1
  {
    ChooseFacts(d, 0);
    var j, f := Choose(d, 0).value, Finest(d, 0);
    ParsedText(CeilDiv(d, NsPer(j)), j);
    SameRounding(d, f, j);
    HourBound(d, j);
  }

  lemma QuotientBound(val: nat, u: nat)
    requires u > 0
    ensures val > MAX_NS / u <==> val * u > MAX_NS
  {
    var q := MAX_NS / u;
    assert q * u <= MAX_NS < (q + 1) * u;
    Compare(val, q, u);
    Compare(q + 1, val, u);
  }

  lemma SameRounding(d: nat, f: unit, j: unit)
    requires f <= j && (f < j ==> Divides(NsPer(j), d))
    ensures RoundedUp(d, NsPer(j)) == RoundedUp(d, NsPer(f))
  {
    if f < j {
      CoarserDivides(f, j, d);
      CeilDivFacts(d, NsPer(f));
      CeilDivFacts(d, NsPer(j));
    }
  }

  /** Only the hour can overflow, and it does beyond 2562047 of them. */
  lemma HourBound(d: nat, j: unit)
    requires 0 < d <= MAX_NS && CeilDiv(d, NsPer(j)) <= MAX_VALUE
    ensures RoundedUp(d, NsPer(j)) <= MAX_NS <==> d <= 2562047 * HOUR || j < 5
    ensures j < 5 ==> d <= 2562047 * HOUR
  {
    var u, val := NsPer(j), CeilDiv(d, NsPer(j));
    CeilDivFacts(d, u);
    if j < 5 {
      Compare(val, MAX_VALUE, u);
    } else {
      assert val <= 2562047 <==> d <= 2562047 * HOUR;
    }
  }

  /** No receiver sees a shorter deadline, nor one longer by more than a hundred-thousandth. */
  lemma RoundTripIsTight(d: duration)
    requires 0 < d <= 2562047 * HOUR
    ensures Parsed(Formatted(d)).Some?
    ensures var v := Parsed(Formatted(d)).value;
            d <= v <= MAX_NS && MAX_VALUE * (v - d) < 1000 * d
  {
    RoundTripValue(d);
    FinestFacts(d, 0);
    var f := Finest(d, 0);
    CeilDivFacts(d, NsPer(f));
    var v := RoundedUp(d, NsPer(f));
    if f > 0 {
      UnitRatio(f - 1);
      assert v - d < NsPer(f) <= 1000 * NsPer(f - 1);
      assert MAX_VALUE * NsPer(f - 1) < d;
    }
    var k, val := ParsedIsInRange(Formatted(d));
  }

  /** A parsed duration is an eight-digit number of some unit, and in range. */
  lemma ParsedIsInRange(s: string) returns (k: unit, val: nat)
    requires Parsed(s).Some?
    ensures Parsed(s).value <= 2562047 * HOUR
    ensures val <= MAX_VALUE && Parsed(s).value == val * NsPer(k)
  {
    var digits := s[..|s| - 1];
    k, val := UnitOf(s[|s| - 1]).value, Number(digits);
    NumberIsSmall(digits);
    Pow10Of8();
    QuotientBound(val, NsPer(k));
    Compare(val, MAX_VALUE, NsPer(k));
  }

  /**
   A value that came off the wire goes back onto it unchanged, written in the
   coarsest unit that divides it.
  */
  lemma CanonicalForm(s: string)
    requires Parsed(s).Some? && Parsed(s).value > 0
    ensures var v := Parsed(s).value;
            && Parsed(Formatted(v)) == Some(v)
            && Choose(v, 0).Some?
            && forall k: unit :: Divides(NsPer(k), v) <==> k <= Choose(v, 0).value
  {
    var k, val := ParsedIsInRange(s);
    var v := Parsed(s).value;
    DivUnique(v, NsPer(k), val, 0);
    Compare(val, MAX_VALUE, NsPer(k));
    FinestFacts(v, 0);
    ChooseFacts(v, 0);
    var j, f := Choose(v, 0).value, Finest(v, 0);
    CoarserDivides(f, k, v);
    forall m: unit ensures Divides(NsPer(m), v) <==> m <= j {
      if m <= j {
        CoarserDivides(m, j, v);
      } else if Divides(NsPer(m), v) {
        CoarserDivides(j + 1, m, v);
      }
    }
    CeilDivFacts(v, NsPer(f));
    RoundTripValue(v);
  }

  lemma RoundedUpIsMonotone(d1: nat, u1: nat, d2: nat, u2: nat)
    requires d1 <= d2 && u1 > 0 && u2 > 0 && Divides(u1, RoundedUp(d2, u2))
    ensures RoundedUp(d1, u1) <= RoundedUp(d2, u2)
  {
    CeilDivFacts(d1, u1);
    CeilDivFacts(d2, u2);
    var v := RoundedUp(d2, u2);
    var m := v / u1;
    assert v == m * u1;
    Compare(CeilDiv(d1, u1), m, u1);
  }

  /** A longer deadline never arrives as a shorter one. */
  lemma RoundTripIsMonotone(d1: duration, d2: duration)
    requires 0 < d1 <= d2 <= 2562047 * HOUR
    ensures Parsed(Formatted(d1)).Some? && Parsed(Formatted(d2)).Some?
    ensures Parsed(Formatted(d1)).value <= Parsed(Formatted(d2)).value
  {
    RoundTripValue(d1);
    RoundTripValue(d2);
    FinestFacts(d1, 0);
    FinestFacts(d2, 0);
    var f1, f2 := Finest(d1, 0), Finest(d2, 0);
    var c := CeilDiv(d2, NsPer(f2));
    DivUnique(c * NsPer(f2), NsPer(f2), c, 0);
    CoarserDivides(f1, f2, c * NsPer(f2));
    RoundedUpIsMonotone(d1, NsPer(f1), d2, NsPer(f2));
  }
}
