/**
 Metadata and trailers: the ordered multimaps of both sides and the conversions
 between them (src/protocol/metadata_codec.cc, include/rpcpio/metadata.h).

 A multimap is the sequence of its entries in iteration order. Keys are compared
 octet by octet; entries with equal keys keep their order of insertion.
*/
module Metadata {
  import opened Bytes
  import opened Statuses
  import Base64
  import Percent

  datatype Entry = Entry(key: string, value: bytes)

  /** The lexicographic order of keys. */
  predicate AtMost(a: string, b: string) {
    a == [] || (b != [] && (a[0] < b[0] || (a[0] == b[0] && AtMost(a[1..], b[1..]))))
  }

  lemma {:induction false} AtMostTotal(a: string, b: string)
    ensures AtMost(a, b) || AtMost(b, a)
    ensures AtMost(a, b) && AtMost(b, a) ==> a == b
  {
    if a != [] && b != [] && a[0] == b[0] {
      AtMostTotal(a[1..], b[1..]);
      assert a == [a[0]] + a[1..] && b == [b[0]] + b[1..];
    }
  }

  lemma {:induction false} AtMostTransitive(a: string, b: string, c: string)
    requires AtMost(a, b) && AtMost(b, c)
    ensures AtMost(a, c)
  {
    if a != [] && a[0] == b[0] && b[0] == c[0] {
      AtMostTransitive(a[1..], b[1..], c[1..]);
    }
  }

  predicate Sorted(m: seq<Entry>) {
    forall i, j | 0 <= i < j < |m| :: AtMost(m[i].key, m[j].key)
  }

  /** Inserts an entry after those whose key is not greater. */
  function Emplace(m: seq<Entry>, e: Entry): seq<Entry> {
    if m != [] && AtMost(m[0].key, e.key) then [m[0]] + Emplace(m[1..], e) else [e] + m
  }

  function Find(m: seq<Entry>, key: string): Option<bytes> {
    if m == [] then None else if m[0].key == key then Some(m[0].value) else Find(m[1..], key)
  }

  function Size(e: Entry): nat {
    |e.key| + |e.value|
  }

  function TotalSize(m: seq<Entry>): nat {
    if m == [] then 0 else Size(m[0]) + TotalSize(m[1..])
  }

  // ----- Keys -----

  predicate IsValidKey(key: string) {
    key != [] && forall i | 0 <= i < |key| ::
      'a' <= key[i] <= 'z' || '0' <= key[i] <= '9' || key[i] == '-' || key[i] == '_'
  }

  predicate IsBinaryKey(key: string) {
    |key| > 4 && key[|key| - 4..] == "-bin"
  }

  predicate IsReservedKey(key: string) {
    "grpc-" <= key || key == "content-type" || key == "te" || ":" <= key
  }

  predicate IsGrpcInternal(key: string) {
    || key == "grpc-status" || key == "grpc-message" || key == "grpc-status-details-bin"
    || key == "grpc-encoding" || key == "grpc-accept-encoding" || key == "grpc-timeout"
    || key == "content-type" || key == "te"
  }

  /** What an application may send. */
  predicate Sendable(key: string) {
    IsValidKey(key) && !IsReservedKey(key)
  }

  /** What an application gets to see of a header block. */
  predicate Visible(key: string) {
    !(key != [] && key[0] == ':') && !IsGrpcInternal(key) && IsValidKey(key)
  }

  lemma SendableIsVisible(key: string)
    requires Sendable(key)
    ensures Visible(key)
  {
    assert "grpc-" <= "grpc-status" && "grpc-" <= "grpc-message" && "grpc-" <= "grpc-status-details-bin";
    assert "grpc-" <= "grpc-encoding" && "grpc-" <= "grpc-accept-encoding" && "grpc-" <= "grpc-timeout";
  }

  function ToWire(e: Entry): Entry {
    if IsBinaryKey(e.key) then Entry(e.key, Base64.Encoded(e.value)) else e
  }

  function FromWire(e: Entry): Entry {
    if IsBinaryKey(e.key) then Entry(e.key, Base64.Decoded(e.value)) else e
  }

  lemma WireRoundTrip(e: Entry)
    ensures FromWire(ToWire(e)) == e && ToWire(e).key == e.key
  {
    Base64.RoundTrip(e.value);
  }

  // ----- The conversions -----

  function AddHeaders(md: seq<Entry>, out: seq<Entry>): seq<Entry> {
    if md == [] then out
    else AddHeaders(md[1..], if Sendable(md[0].key) then Emplace(out, ToWire(md[0])) else out)
  }

  /** The visible entries of a header block, decoded. */
  function Seen(headers: seq<Entry>): seq<Entry> {
    if headers == [] then []
    else (if Visible(headers[0].key) then [FromWire(headers[0])] else []) + Seen(headers[1..])
  }

  function Sent(md: seq<Entry>): seq<Entry> {
    if md == [] then []
    else (if Sendable(md[0].key) then [md[0]] else []) + Sent(md[1..])
  }

  /** The longest prefix of `entries` that fits into `room`. */
  function Fitting(entries: seq<Entry>, room: int): seq<Entry> {
    if entries == [] || Size(entries[0]) > room then []
    else [entries[0]] + Fitting(entries[1..], room - Size(entries[0]))
  }

  function EmplaceAll(out: seq<Entry>, entries: seq<Entry>): seq<Entry>
    decreases |entries|
  {
    if entries == [] then out else EmplaceAll(Emplace(out, entries[0]), entries[1..])
  }

  method MetadataToHeaders(md: seq<Entry>, before: seq<Entry>) returns (out: seq<Entry>)
    ensures out == AddHeaders(md, before)
  {
    out := before;
    var i := 0;
    while i < |md|
      invariant i <= |md|
      invariant AddHeaders(md, before) == AddHeaders(md[i..], out)
    {
      var e := md[i];
      assert md[i..][1..] == md[i + 1..];
      i := i + 1;
      if !IsValidKey(e.key) { continue; }
      if IsReservedKey(e.key) { continue; }
      var value := e.value;
      if IsBinaryKey(e.key) {
        value := Base64.EncodeBase64(e.value);
      }
      out := Emplace(out, Entry(e.key, value));
    }
  }

  /** With `room` left and `headers` to come, a conversion that holds `out` ends in `end`, complete or not. */
  ghost predicate WillEnd(headers: seq<Entry>, out: seq<Entry>, room: int, end: seq<Entry>, complete: bool) {
    var fit := Fitting(Seen(headers), room);
    end == EmplaceAll(out, fit) && (complete <==> fit == Seen(headers))
  }

  lemma SkipHeader(headers: seq<Entry>, out: seq<Entry>, room: int, end: seq<Entry>, complete: bool)
    requires headers != [] && !Visible(headers[0].key) && WillEnd(headers, out, room, end, complete)
    ensures WillEnd(headers[1..], out, room, end, complete)
  {
    assert [] + Seen(headers[1..]) == Seen(headers[1..]);
  }

  lemma TakeHeader(headers: seq<Entry>, out: seq<Entry>, room: int, end: seq<Entry>, complete: bool)
    requires headers != [] && Visible(headers[0].key) && WillEnd(headers, out, room, end, complete)
    ensures var e := FromWire(headers[0]);
            if Size(e) > room then end == out && !complete
            else WillEnd(headers[1..], Emplace(out, e), room - Size(e), end, complete)
  {
    var e, rest := FromWire(headers[0]), Seen(headers[1..]);
    assert Seen(headers) == [e] + rest;
    ConsTail(e, rest);
    if Size(e) <= room {
      ConsTail(e, Fitting(rest, room - Size(e)));
    }
  }

  method DecodeValue(h: Entry) returns (value: bytes)
    ensures Entry(h.key, value) == FromWire(h)
  {
    value := h.value;
    if IsBinaryKey(h.key) {
      value := Base64.DecodeBase64(value);
    }
  }

  method HeadersToMetadata(headers: seq<Entry>, before: seq<Entry>, maxSize: nat)
    returns (status: Status, out: seq<Entry>)
    ensures var fit := Fitting(Seen(headers), maxSize - TotalSize(before));
            && out == EmplaceAll(before, fit)
            && status == if fit == Seen(headers) then OK_STATUS
                         else Failed(RESOURCE_EXHAUSTED, "metadata size exceeds limit")
  {
    out := before;
    var total := TotalSize(before);
    ghost var fit := Fitting(Seen(headers), maxSize - total);
    ghost var end, complete := EmplaceAll(before, fit), fit == Seen(headers);
    assert headers[0..] == headers;
    var i := 0;
    while i < |headers|
      invariant i <= |headers|
      invariant WillEnd(headers[i..], out, maxSize - total, end, complete)
    {
      var h := headers[i];
      ghost var left := headers[i..];
      assert left[0] == h && left[1..] == headers[i + 1..];
      i := i + 1;
      if !Visible(h.key) {
        SkipHeader(left, out, maxSize - total, end, complete);
        continue;
      }
      var value := DecodeValue(h);
      TakeHeader(left, out, maxSize - total, end, complete);
      total := total + |h.key| + |value|;
      if total > maxSize {
        return Failed(RESOURCE_EXHAUSTED, "metadata size exceeds limit"), out;
      }
      out := Emplace(out, Entry(h.key, value));
    }
    return OK_STATUS, out;
  }

  // ----- Order and search -----

  lemma {:induction false} EmplaceAddsOne(m: seq<Entry>, e: Entry)
    ensures multiset(Emplace(m, e)) == multiset(m) + multiset{e}
    ensures TotalSize(Emplace(m, e)) == TotalSize(m) + Size(e)
  {
    if m != [] && AtMost(m[0].key, e.key) {
      EmplaceAddsOne(m[1..], e);
      assert m == [m[0]] + m[1..];
      ConsTail(m[0], Emplace(m[1..], e));
    } else {
      ConsTail(e, m);
    }
  }

  predicate AllAbove(key: string, m: seq<Entry>) {
    forall i | 0 <= i < |m| :: AtMost(key, m[i].key)
  }

  lemma {:induction false} EmplaceStaysAbove(m: seq<Entry>, e: Entry, key: string)
    requires AllAbove(key, m) && AtMost(key, e.key)
    ensures AllAbove(key, Emplace(m, e))
  {
    if m != [] && AtMost(m[0].key, e.key) {
      EmplaceStaysAbove(m[1..], e, key);
    }
  }

  lemma SortedCons(e: Entry, m: seq<Entry>)
    requires Sorted(m) && AllAbove(e.key, m)
    ensures Sorted([e] + m)
  {}

  lemma {:induction false} EmplaceKeepsSorted(m: seq<Entry>, e: Entry)
    requires Sorted(m)
    ensures Sorted(Emplace(m, e))
  {
    if m != [] && AtMost(m[0].key, e.key) {
      EmplaceKeepsSorted(m[1..], e);
      EmplaceStaysAbove(m[1..], e, m[0].key);
      SortedCons(m[0], Emplace(m[1..], e));
    } else if m != [] {
      AtMostTotal(m[0].key, e.key);
      forall j | 0 <= j < |m| ensures AtMost(e.key, m[j].key) {
        if j > 0 {
          AtMostTransitive(e.key, m[0].key, m[j].key);
        }
      }
      SortedCons(e, m);
    }
  }

  lemma {:induction false} EmplaceLast(m: seq<Entry>, e: Entry)
    requires forall i | 0 <= i < |m| :: AtMost(m[i].key, e.key)
    ensures Emplace(m, e) == m + [e]
  {
    if m != [] {
      EmplaceLast(m[1..], e);
    }
  }

  /** Entries already in order are appended as they come. */
  lemma {:induction false} EmplaceAllAppends(out: seq<Entry>, entries: seq<Entry>)
    requires Sorted(out + entries)
    ensures EmplaceAll(out, entries) == out + entries
    decreases |entries|
  {
    if entries != [] {
      var e := entries[0];
      forall i | 0 <= i < |out| ensures AtMost(out[i].key, e.key) {
        assert (out + entries)[i] == out[i] && (out + entries)[|out|] == e;
      }
      EmplaceLast(out, e);
      assert (out + [e]) + entries[1..] == out + entries;
      EmplaceAllAppends(out + [e], entries[1..]);
    }
  }

  lemma {:induction false} FindAfterEmplace(m: seq<Entry>, e: Entry, key: string)
    requires Sorted(m)
    ensures Find(Emplace(m, e), key) ==
              if key == e.key && Find(m, key).None? then Some(e.value) else Find(m, key)
  {
    if m != [] && AtMost(m[0].key, e.key) {
      FindAfterEmplace(m[1..], e, key);
    } else if key == e.key {
      FindAbove(m, e.key);
      assert ([e] + m)[1..] == m;
    } else {
      assert ([e] + m)[1..] == m;
    }
  }

  lemma {:induction false} FindAbove(m: seq<Entry>, key: string)
    requires Sorted(m) && (m != [] ==> !AtMost(m[0].key, key))
    ensures Find(m, key).None?
  {
    if m != [] {
      AtMostTotal(key, key);
      if |m| > 1 && AtMost(m[1].key, key) {
        AtMostTransitive(m[0].key, m[1].key, key);
      }
      FindAbove(m[1..], key);
    }
  }

  lemma {:induction false} FindAfterAddHeaders(md: seq<Entry>, out: seq<Entry>, key: string)
    requires Sorted(out) && IsReservedKey(key)
    ensures Sorted(AddHeaders(md, out)) && Find(AddHeaders(md, out), key) == Find(out, key)
    decreases |md|
  {
    if md != [] {
      var e := ToWire(md[0]);
      EmplaceKeepsSorted(out, e);
      FindAfterEmplace(out, e, key);
      FindAfterAddHeaders(md[1..], if Sendable(md[0].key) then Emplace(out, e) else out, key);
    }
  }

  // ----- Trailers -----

  /** The decimal text of a status code. */
  function CodeText(code: StatusCode): bytes {
    if code < 10 then [48 + code] else [49, 48 + (code - 10)]
  }

  predicate AllDigits(s: bytes) {
    forall i | 0 <= i < |s| :: 48 <= s[i] <= 57
  }

  /** The number a string of digits denotes; zero for none. */
  function Decimal(s: bytes): int {
    if s == [] then 0 else Decimal(s[..|s| - 1]) * 10 + (s[|s| - 1] as int - 48)
  }

  /** A status code exactly when the text is digits that denote one; UNKNOWN otherwise. The empty text denotes OK. */
  function CodeOf(text: bytes): StatusCode {
    if AllDigits(text) && Decimal(text) <= 16 then DecimalOfDigits(text); Decimal(text) else UNKNOWN
  }

  lemma {:induction false} DecimalOfDigits(s: bytes)
    requires AllDigits(s)
    ensures 0 <= Decimal(s)
    ensures forall k | 0 <= k <= |s| :: 0 <= Decimal(s[..k]) <= Decimal(s)
  {
    if s != [] {
      var front := s[..|s| - 1];
      DecimalOfDigits(front);
      forall k | 0 <= k <= |s| ensures 0 <= Decimal(s[..k]) <= Decimal(s) {
        if k < |s| {
          assert s[..k] == front[..k];
        } else {
          assert s[..k] == s;
        }
      }
    }
  }

  lemma {:induction false} ZeroOnlyOfZeros(s: bytes)
    requires AllDigits(s)
    ensures Decimal(s) == 0 <==> forall i | 0 <= i < |s| :: s[i] == 48
  {
    if s != [] {
      var front := s[..|s| - 1];
      DecimalOfDigits(front);
      ZeroOnlyOfZeros(front);
      assert forall i | 0 <= i < |front| :: s[i] == front[i];
    }
  }

  /** A text is read as OK if and only if it holds nothing but zeros: also when it is empty. */
  lemma OkIffOnlyZeros(text: bytes)
    ensures CodeOf(text) == OK <==> forall i | 0 <= i < |text| :: text[i] == 48
    ensures CodeOf([]) == OK
  {
    if AllDigits(text) {
      ZeroOnlyOfZeros(text);
    }
  }

  method ParseGrpcStatus(value: bytes) returns (code: StatusCode)
    ensures code == CodeOf(value)
  {
    var n, negative := 0, false;
    var digits := value;
    if value != [] && value[0] == 45 {
      negative, digits := true, value[1..];
    }
    if AllDigits(digits) {
      DecimalOfDigits(digits);
    }
    var i := 0;
    while i < |digits|
      invariant 0 <= i <= |digits| && AllDigits(digits[..i])
      invariant 0 <= n <= 16 && n == Decimal(digits[..i])
    {
      var c := digits[i];
      if c < 48 || c > 57 {
        return UNKNOWN;
      }
      assert digits[..i + 1][..i] == digits[..i];
      n := n * 10 + (c as int - 48);
      i := i + 1;
      if n > 16 {
        return UNKNOWN;
      }
    }
    assert digits[..i] == digits;
    if negative {
      return UNKNOWN;
    }
    return n;
  }

  lemma CodeRoundTrip(code: StatusCode)
    ensures CodeOf(CodeText(code)) == code
  {
    var s := CodeText(code);
    assert Decimal([]) == 0;
    if code < 10 {
      assert s[..0] == [];
    } else {
      assert s[..1] == [49] && [49][..0] == [];
      assert Decimal([49]) == 1;
    }
  }

  function StatusTrailers(status: Status, out: seq<Entry>): seq<Entry> {
    var h1 := Emplace(out, Entry("grpc-status", CodeText(status.code)));
    var h2 := if status.message == [] then h1
              else Emplace(h1, Entry("grpc-message", Percent.Encoded(status.message)));
    if status.details == [] then h2
    else Emplace(h2, Entry("grpc-status-details-bin", Base64.Encoded(status.details)))
  }

  /** The header block a server ends a call with. */
  function Trailers(status: Status, md: seq<Entry>, out: seq<Entry>): seq<Entry> {
    AddHeaders(md, StatusTrailers(status, out))
  }

  method BuildTrailers(status: Status, md: seq<Entry>, before: seq<Entry>) returns (out: seq<Entry>)
    ensures out == Trailers(status, md, before)
  {
    out := Emplace(before, Entry("grpc-status", CodeText(status.code)));
    if status.message != [] {
      var message := Percent.PercentEncode(status.message);
      out := Emplace(out, Entry("grpc-message", message));
    }
    if status.details != [] {
      var details := Base64.EncodeBase64(status.details);
      out := Emplace(out, Entry("grpc-status-details-bin", details));
    }
    out := MetadataToHeaders(md, out);
  }

  /** The status a client reads off a header block. */
  function TrailerStatus(trailers: seq<Entry>): Status {
    match Find(trailers, "grpc-status")
    case None => Failed(UNKNOWN, "missing grpc-status trailer")
    case Some(code) =>
      var message := match Find(trailers, "grpc-message")
                     case None => []
                     case Some(m) => Percent.Decoded(m);
      var details := match Find(trailers, "grpc-status-details-bin")
                     case None => []
                     case Some(d) => Base64.Decoded(d);
      Status(CodeOf(code), message, details)
  }

  method ExtractTrailerStatus(trailers: seq<Entry>) returns (status: Status)
    ensures status == TrailerStatus(trailers)
  {
    var it := Find(trailers, "grpc-status");
    if it.None? {
      return Failed(UNKNOWN, "missing grpc-status trailer");
    }
    var code := ParseGrpcStatus(it.value);
    var message, details := [], [];
    var msg := Find(trailers, "grpc-message");
    if msg.Some? {
      message := Percent.PercentDecode(msg.value);
    }
    var det := Find(trailers, "grpc-status-details-bin");
    if det.Some? {
      details := Base64.DecodeBase64(det.value);
    }
    return Status(code, message, details);
  }

  predicate NoStatus(m: seq<Entry>) {
    && Find(m, "grpc-status").None?
    && Find(m, "grpc-message").None?
    && Find(m, "grpc-status-details-bin").None?
  }

  /** Whatever else the block carries, and whatever metadata is added, the status comes back as it went in. */
  lemma StatusRoundTrip(status: Status, md: seq<Entry>, out: seq<Entry>)
    requires Sorted(out) && NoStatus(out)
    ensures TrailerStatus(Trailers(status, md, out)) == status
  {
    var s, m, d := "grpc-status", "grpc-message", "grpc-status-details-bin";
    StatusEntries(status, out);
    var h := StatusTrailers(status, out);
    assert "grpc-" <= s && "grpc-" <= m && "grpc-" <= d;
    FindAfterAddHeaders(md, h, s);
    FindAfterAddHeaders(md, h, m);
    FindAfterAddHeaders(md, h, d);
    CodeRoundTrip(status.code);
    Percent.RoundTrip(status.message);
    Base64.RoundTrip(status.details);
  }

  lemma StatusEntries(status: Status, out: seq<Entry>)
    requires Sorted(out) && NoStatus(out)
    ensures var h := StatusTrailers(status, out);
            && Sorted(h)
            && Find(h, "grpc-status") == Some(CodeText(status.code))
            && Find(h, "grpc-message") == (if status.message == [] then None else Some(Percent.Encoded(status.message)))
            && Find(h, "grpc-status-details-bin") == (if status.details == [] then None else Some(Base64.Encoded(status.details)))
  {
    var s, m, d := "grpc-status", "grpc-message", "grpc-status-details-bin";
    assert |s| != |m| && |m| != |d| && |s| != |d|;
    var e1, e2, e3 := Entry(s, CodeText(status.code)), Entry(m, Percent.Encoded(status.message)), Entry(d, Base64.Encoded(status.details));
    var h1 := Emplace(out, e1);
    EmplaceKeepsSorted(out, e1);
    FindAfterEmplace(out, e1, s);
    FindAfterEmplace(out, e1, m);
    FindAfterEmplace(out, e1, d);
    EmplaceKeepsSorted(h1, e2);
    FindAfterEmplace(h1, e2, s);
    FindAfterEmplace(h1, e2, m);
    FindAfterEmplace(h1, e2, d);
    var h2 := if status.message == [] then h1 else Emplace(h1, e2);
    EmplaceKeepsSorted(h2, e3);
    FindAfterEmplace(h2, e3, s);
    FindAfterEmplace(h2, e3, m);
    FindAfterEmplace(h2, e3, d);
  }

  // ----- Metadata round trip -----

  /** Inserting an entry inserts what is visible of it, at the place its key demands. */
  lemma {:induction false} SeenAfterEmplace(m: seq<Entry>, e: Entry)
    requires Sorted(m)
    ensures Seen(Emplace(m, e)) == if Visible(e.key) then Emplace(Seen(m), FromWire(e)) else Seen(m)
  {
    if m != [] && AtMost(m[0].key, e.key) {
      SeenAfterEmplace(m[1..], e);
      if Visible(m[0].key) {
        assert Seen(m) == [FromWire(m[0])] + Seen(m[1..]);
        assert Seen(m)[1..] == Seen(m[1..]);
      } else {
        assert Seen(m) == Seen(m[1..]);
      }
    } else {
      assert ([e] + m)[1..] == m;
      SeenAbove(m, e.key);
    }
  }

  lemma {:induction false} SeenAbove(m: seq<Entry>, key: string)
    requires Sorted(m) && (m != [] ==> !AtMost(m[0].key, key))
    ensures Seen(m) != [] ==> !AtMost(Seen(m)[0].key, key)
  {
    if m != [] && !Visible(m[0].key) {
      if |m| > 1 && AtMost(m[1].key, key) {
        AtMostTransitive(m[0].key, m[1].key, key);
      }
      SeenAbove(m[1..], key);
    }
  }

  /** Of a block built from metadata, the application sees what was sendable, decoded, inserted in order. */
  lemma {:induction false} SeenAfterAddHeaders(md: seq<Entry>, out: seq<Entry>)
    requires Sorted(out)
    ensures Seen(AddHeaders(md, out)) == EmplaceAll(Seen(out), Sent(md))
    decreases |md|
  {
    if md != [] {
      var e := md[0];
      if Sendable(e.key) {
        WireRoundTrip(e);
        SendableIsVisible(e.key);
        EmplaceKeepsSorted(out, ToWire(e));
        SeenAfterEmplace(out, ToWire(e));
        SeenAfterAddHeaders(md[1..], Emplace(out, ToWire(e)));
        assert Sent(md)[1..] == Sent(md[1..]);
      } else {
        SeenAfterAddHeaders(md[1..], out);
        assert Sent(md) == Sent(md[1..]);
      }
    }
  }

  lemma {:induction false} SentStaysAbove(key: string, md: seq<Entry>)
    requires AllAbove(key, md)
    ensures AllAbove(key, Sent(md))
  {
    if md != [] {
      SentStaysAbove(key, md[1..]);
    }
  }

  lemma {:induction false} SentIsSorted(md: seq<Entry>)
    requires Sorted(md)
    ensures Sorted(Sent(md))
  {
    if md != [] {
      SentIsSorted(md[1..]);
      var tail := Sent(md[1..]);
      SentStaysAbove(md[0].key, md[1..]);
      SortedCons(md[0], tail);
      assert [] + tail == tail;
    }
  }

  lemma {:induction false} FittingPrefix(entries: seq<Entry>, room: int)
    ensures Fitting(entries, room) <= entries
    ensures room >= 0 ==> TotalSize(Fitting(entries, room)) <= room
    ensures Fitting(entries, room) == entries <==> entries == [] || TotalSize(entries) <= room
  {
    if entries != [] {
      FittingPrefix(entries[1..], room - Size(entries[0]));
      assert Size(entries[0]) <= room ==> Fitting(entries, room)[1..] == Fitting(entries[1..], room - Size(entries[0]));
    }
  }

  /**
   Trailing metadata survives the wire: the receiver gets exactly the sender's
   sendable entries, duplicates and order included, or, when they exceed the
   limit, the longest prefix of them that does not.
  */
  lemma MetadataRoundTrip(status: Status, md: seq<Entry>, maxSize: nat)
    requires Sorted(md)
    ensures var seen := Seen(Trailers(status, md, []));
            && seen == Sent(md)
            && EmplaceAll([], Fitting(seen, maxSize)) == Fitting(Sent(md), maxSize)
            && (Fitting(seen, maxSize) == seen <==> TotalSize(Sent(md)) <= maxSize)
  {
    StatusIsInvisible(status);
    var h := StatusTrailers(status, []);
    SeenAfterAddHeaders(md, h);
    SentIsSorted(md);
    EmplaceAllAppends([], Sent(md));
    FittingPrefix(Sent(md), maxSize);
    var fit := Fitting(Sent(md), maxSize);
    assert [] + fit == fit && [] + Sent(md) == Sent(md);
    EmplaceAllAppends([], fit);
  }

  lemma HiddenEntry(m: seq<Entry>, key: string, value: bytes)
    requires Sorted(m) && Seen(m) == [] && IsGrpcInternal(key)
    ensures Sorted(Emplace(m, Entry(key, value))) && Seen(Emplace(m, Entry(key, value))) == []
  {
    EmplaceKeepsSorted(m, Entry(key, value));
    SeenAfterEmplace(m, Entry(key, value));
  }

  lemma StatusIsInvisible(status: Status)
    ensures Sorted(StatusTrailers(status, [])) && Seen(StatusTrailers(status, [])) == []
  {
    var code, message, details := CodeText(status.code), Percent.Encoded(status.message), Base64.Encoded(status.details);
    HiddenEntry([], "grpc-status", code);
    var h1 := Emplace([], Entry("grpc-status", code));
    HiddenEntry(h1, "grpc-message", message);
    var h2 := if status.message == [] then h1 else Emplace(h1, Entry("grpc-message", message));
    HiddenEntry(h2, "grpc-status-details-bin", details);
  }

  /** A map that starts within the limit never grows beyond it. */
  lemma LimitIsKept(before: seq<Entry>, headers: seq<Entry>, maxSize: nat)
    requires Sorted(before) && TotalSize(before) <= maxSize
    ensures var out := EmplaceAll(before, Fitting(Seen(headers), maxSize - TotalSize(before)));
            Sorted(out) && TotalSize(out) <= maxSize
  {
    var room := maxSize - TotalSize(before);
    FittingPrefix(Seen(headers), room);
    EmplaceAllSize(before, Fitting(Seen(headers), room));
  }

  lemma {:induction false} EmplaceAllSize(out: seq<Entry>, entries: seq<Entry>)
    requires Sorted(out)
    ensures Sorted(EmplaceAll(out, entries))
    ensures TotalSize(EmplaceAll(out, entries)) == TotalSize(out) + TotalSize(entries)
    decreases |entries|
  {
    if entries != [] {
      EmplaceKeepsSorted(out, entries[0]);
      EmplaceAddsOne(out, entries[0]);
      EmplaceAllSize(Emplace(out, entries[0]), entries[1..]);
    }
  }
}
