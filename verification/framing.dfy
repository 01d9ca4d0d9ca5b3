/**
 gRPC length-prefixed messages: the encoder, and the one-pass parse of a whole
 octet string that every incremental parser of the program is measured against.
 A header is one flag octet and a 32-bit big-endian length.

 Shifts and masks of unsigned values are written as the division, remainder and
 sum they denote.
*/
module Lpm {
  import opened Bytes

  const HEADER_SIZE := 5
  const MAX_PAYLOAD := 0xFFFF_FFFF

  datatype Frame = Frame(flag: byte, payload: bytes)

  function Be32(n: nat): (b: bytes)
    requires n <= MAX_PAYLOAD
    ensures |b| == 4
  {
    [n / 0x100_0000 % 0x100, n / 0x1_0000 % 0x100, n / 0x100 % 0x100, n % 0x100]
  }

  function FromBe32(b: bytes): nat
    requires |b| == 4
  {
    var b0: int, b1: int, b2: int, b3: int := b[0], b[1], b[2], b[3];
    b0 * 0x100_0000 + b1 * 0x1_0000 + b2 * 0x100 + b3
  }

  lemma Be32Decodes(n: nat)
    requires n <= MAX_PAYLOAD
    ensures FromBe32(Be32(n)) == n
  {
    assert n / 0x1_0000 == n / 0x100_0000 * 0x100 + n / 0x1_0000 % 0x100;
    assert n / 0x100 == n / 0x1_0000 * 0x100 + n / 0x100 % 0x100;
  }

  lemma Be32Encodes(b: bytes)
    requires |b| == 4
    ensures FromBe32(b) <= MAX_PAYLOAD && Be32(FromBe32(b)) == b
  {
    var b0: int, b1: int, b2: int, b3: int := b[0], b[1], b[2], b[3];
    var m := FromBe32(b);
    assert m / 0x100_0000 == b0;
    assert m / 0x1_0000 == b0 * 0x100 + b1;
    assert m / 0x100 == b0 * 0x1_0000 + b1 * 0x100 + b2;
    assert Be32(m) == [b0, b1, b2, b3];
  }

  /** The octets of one frame. */
  function Encoding(f: Frame): bytes
    requires |f.payload| <= MAX_PAYLOAD
  {
    [f.flag] + Be32(|f.payload|) + f.payload
  }

  predicate Encodable(frames: seq<Frame>) {
    forall i | 0 <= i < |frames| :: |frames[i].payload| <= MAX_PAYLOAD
  }

  /** The octets of a sequence of frames. */
  function Wire(frames: seq<Frame>): bytes
    requires Encodable(frames)
  {
    if frames == [] then [] else Encoding(frames[0]) + Wire(frames[1..])
  }

  function Payloads(frames: seq<Frame>): (ps: seq<bytes>)
    ensures |ps| == |frames|
  {
    seq(|frames|, i requires 0 <= i < |frames| => frames[i].payload)
  }

  /** The uncompressed frames that the writers of both sides produce. */
  function Plain(ps: seq<bytes>): (frames: seq<Frame>)
    ensures |frames| == |ps| && Payloads(frames) == ps
  {
    seq(|ps|, i requires 0 <= i < |ps| => Frame(0, ps[i]))
  }

  lemma {:induction false} WireAppend(a: seq<Frame>, b: seq<Frame>)
    requires Encodable(a) && Encodable(b)
    ensures Encodable(a + b) && Wire(a + b) == Wire(a) + Wire(b)
  {
    if a == [] {
      assert a + b == b;
    } else {
      WireAppend(a[1..], b);
      assert a + b == [a[0]] + (a[1..] + b);
      assert (a + b)[1..] == a[1..] + b;
      Assoc(Encoding(a[0]), Wire(a[1..]), Wire(b));
    }
  }

  /**
   Replaces `out` by the frame, or leaves it alone and reports false when the
   payload does not fit a 32-bit length.
  */
  method EncodeFrame(flag: byte, payload: bytes, before: bytes) returns (ok: bool, out: bytes)
    ensures ok <==> |payload| <= MAX_PAYLOAD
    ensures out == if ok then Encoding(Frame(flag, payload)) else before
  {
    out := before;
    if |payload| > MAX_PAYLOAD {
      return false, out;
    }
    var len := |payload|;
    out := [];
    out := out + [flag];
    out := out + [len / 0x100_0000 % 0x100];
    out := out + [len / 0x1_0000 % 0x100];
    out := out + [len / 0x100 % 0x100];
    out := out + [len % 0x100];
    out := out + payload;
    return true, out;
  }

  // ----- The reference parse -----

  /** What a receiver enforces: the message limit, and whether it inspects the flag. */
  datatype Limits = Limits(max: nat, strict: bool)

  datatype Verdict = Clean | BadFlag | TooLarge

  function Judge(lim: Limits, header: bytes): Verdict
    requires |header| >= HEADER_SIZE
  {
    if lim.strict && header[0] > 1 then BadFlag
    else if FromBe32(header[1..5]) > lim.max then TooLarge
    else Clean
  }

  /** The complete messages of a stream, the octets not yet consumed, and why parsing stopped. */
  datatype Parsed = Parsed(messages: seq<bytes>, rest: bytes, verdict: Verdict) {
    function After(earlier: seq<bytes>): Parsed {
      this.(messages := earlier + messages)
    }
  }

  function Parse(lim: Limits, s: bytes): Parsed
    decreases |s|
  {
    if |s| < HEADER_SIZE then Parsed([], s, Clean)
    else if Judge(lim, s) != Clean then Parsed([], s, Judge(lim, s))
    else
      var end := HEADER_SIZE + FromBe32(s[1..5]);
      if |s| < end then Parsed([], s, Clean)
      else Parse(lim, s[end..]).After([s[HEADER_SIZE..end]])
  }

  lemma ParsedAfter(p: Parsed, a: seq<bytes>, b: seq<bytes>)
    ensures p.After(b).After(a) == p.After(a + b)
    ensures p.After([]) == p
  {
    assert a + (b + p.messages) == (a + b) + p.messages;
  }

  /** A stream starts with an acceptable message that has arrived completely. */
  predicate HasHead(lim: Limits, s: bytes) {
    HEADER_SIZE <= |s| && Judge(lim, s) == Clean && HEADER_SIZE + FromBe32(s[1..5]) <= |s|
  }

  /** The first message comes out first, whatever follows. */
  lemma ParseHead(lim: Limits, s: bytes, more: bytes) returns (head: seq<bytes>, tail: bytes)
    requires HasHead(lim, s)
    ensures |tail| < |s|
    ensures Parse(lim, s) == Parse(lim, tail).After(head)
    ensures Parse(lim, s + more) == Parse(lim, tail + more).After(head)
  {
    var end, t := HEADER_SIZE + FromBe32(s[1..5]), s + more;
    head, tail := [s[HEADER_SIZE..end]], s[end..];
    assert t[1..5] == s[1..5] && t[0] == s[0];
    assert t[end..] == tail + more;
    assert t[HEADER_SIZE..end] == s[HEADER_SIZE..end];
  }

  /** Parsing may stop anywhere and go on from the unconsumed octets, also after a refusal. */
  lemma {:induction false} ParseSplits(lim: Limits, a: bytes, b: bytes)
    ensures Parse(lim, a + b) == Parse(lim, Parse(lim, a).rest + b).After(Parse(lim, a).messages)
    decreases |a|
  {
    if HasHead(lim, a) {
      var head, tail := ParseHead(lim, a, b);
      ParseSplits(lim, tail, b);
      ParsedAfter(Parse(lim, Parse(lim, tail).rest + b), head, Parse(lim, tail).messages);
    } else {
      ParsedAfter(Parse(lim, a + b), [], []);
    }
  }

  /** What is left over never hides a complete message. */
  lemma {:induction false} RestIsBlocked(lim: Limits, s: bytes)
    ensures var p := Parse(lim, s); Parse(lim, p.rest) == Parsed([], p.rest, p.verdict)
    decreases |s|
  {
    if HEADER_SIZE <= |s| && Judge(lim, s) == Clean {
      var end := HEADER_SIZE + FromBe32(s[1..5]);
      if end <= |s| {
        RestIsBlocked(lim, s[end..]);
      }
    }
  }

  predicate Acceptable(lim: Limits, f: Frame) {
    |f.payload| <= lim.max && |f.payload| <= MAX_PAYLOAD && (lim.strict ==> f.flag <= 1)
  }

  predicate AllAcceptable(lim: Limits, frames: seq<Frame>)
    ensures AllAcceptable(lim, frames) ==> Encodable(frames)
  {
    forall i | 0 <= i < |frames| :: Acceptable(lim, frames[i])
  }

  lemma ParseFrame(lim: Limits, f: Frame, tail: bytes)
    requires Acceptable(lim, f)
    ensures Parse(lim, Encoding(f) + tail) == Parse(lim, tail).After([f.payload])
  {
    var s := Encoding(f) + tail;
    Be32Decodes(|f.payload|);
    assert s[1..5] == Be32(|f.payload|);
    assert s[5..5 + |f.payload|] == f.payload;
    assert s[5 + |f.payload|..] == tail;
  }

  /** Encoding and then parsing gives the messages back. */
  lemma {:induction false} ParseOfWire(lim: Limits, frames: seq<Frame>)
    requires AllAcceptable(lim, frames)
    ensures Parse(lim, Wire(frames)) == Parsed(Payloads(frames), [], Clean)
  {
    if frames != [] {
      ParseFrame(lim, frames[0], Wire(frames[1..]));
      ParseOfWire(lim, frames[1..]);
      assert Payloads(frames) == [frames[0].payload] + Payloads(frames[1..]);
    }
  }

  /** The frames that a parse consumes. */
  function Consumed(lim: Limits, s: bytes): seq<Frame>
    decreases |s|
  {
    if |s| < HEADER_SIZE || Judge(lim, s) != Clean then []
    else
      var end := HEADER_SIZE + FromBe32(s[1..5]);
      if |s| < end then [] else [Frame(s[0], s[HEADER_SIZE..end])] + Consumed(lim, s[end..])
  }

  lemma EncodingOfHead(lim: Limits, s: bytes)
    requires HasHead(lim, s)
    ensures var end := HEADER_SIZE + FromBe32(s[1..5]);
            var f := Frame(s[0], s[HEADER_SIZE..end]);
            Acceptable(lim, f) && Encoding(f) == s[..end]
  {
    Be32Encodes(s[1..5]);
  }

  /** The first message is a frame, consumed first. */
  lemma ConsumeHead(lim: Limits, s: bytes) returns (f: Frame, tail: bytes)
    requires HasHead(lim, s)
    ensures Acceptable(lim, f) && s == Encoding(f) + tail && |tail| < |s|
    ensures Consumed(lim, s) == [f] + Consumed(lim, tail)
    ensures Parse(lim, s) == Parse(lim, tail).After([f.payload])
  {
    var end := HEADER_SIZE + FromBe32(s[1..5]);
    f, tail := Frame(s[0], s[HEADER_SIZE..end]), s[end..];
    EncodingOfHead(lim, s);
    assert s == s[..end] + tail;
  }

  lemma ConsFrame(lim: Limits, f: Frame, tail: seq<Frame>)
    requires Acceptable(lim, f) && AllAcceptable(lim, tail)
    ensures AllAcceptable(lim, [f] + tail)
    ensures Wire([f] + tail) == Encoding(f) + Wire(tail)
    ensures Payloads([f] + tail) == [f.payload] + Payloads(tail)
  {
    assert ([f] + tail)[1..] == tail;
  }

  /** A parse loses nothing: the consumed frames and the remainder spell the input. */
  lemma {:induction false} ParseConserves(lim: Limits, s: bytes)
    ensures AllAcceptable(lim, Consumed(lim, s))
    ensures Payloads(Consumed(lim, s)) == Parse(lim, s).messages
    ensures s == Wire(Consumed(lim, s)) + Parse(lim, s).rest
    decreases |s|
  {
    if HasHead(lim, s) {
      var f, tail := ConsumeHead(lim, s);
      ParseConserves(lim, tail);
      ConsFrame(lim, f, Consumed(lim, tail));
      Assoc(Encoding(f), Wire(Consumed(lim, tail)), Parse(lim, tail).rest);
    }
  }

  /** A stream parses cleanly with nothing left over exactly when it is a sequence of acceptable frames. */
  lemma CleanStreams(lim: Limits, s: bytes)
    ensures Parse(lim, s).verdict == Clean && Parse(lim, s).rest == []
            <==> exists frames: seq<Frame> :: AllAcceptable(lim, frames) && s == Wire(frames)
  {
    if Parse(lim, s).verdict == Clean && Parse(lim, s).rest == [] {
      ParseConserves(lim, s);
      assert AllAcceptable(lim, Consumed(lim, s)) && s == Wire(Consumed(lim, s));
    }
    forall frames: seq<Frame> | AllAcceptable(lim, frames) && s == Wire(frames)
      ensures Parse(lim, s) == Parsed(Payloads(frames), [], Clean)
    {
      ParseOfWire(lim, frames);
    }
  }

  lemma PrefixOfConcat(a: bytes, b: bytes, t: bytes)
    requires t <= a + b
    ensures forall n: nat | n <= |a| && n <= |t| :: t[..n] == a[..n]
    ensures |a| <= |t| ==> t == a + t[|a|..] && t[|a|..] <= b
  {
    if |a| <= |t| {
      assert t[..|a|] == a;
      assert (a + b)[|a|..] == b;
    }
  }

  /** The first octets of a stream are the first frame's header, then its payload. */
  lemma HeadOfWire(frames: seq<Frame>, t: bytes)
    requires Encodable(frames) && frames != [] && t <= Wire(frames) && HEADER_SIZE <= |t|
    ensures t[0] == frames[0].flag && FromBe32(t[1..5]) == |frames[0].payload|
    ensures var end := HEADER_SIZE + |frames[0].payload|;
            end <= |t| ==> t == Encoding(frames[0]) + t[end..] && t[end..] <= Wire(frames[1..])
  {
    var f, tail := frames[0], Wire(frames[1..]);
    var end := HEADER_SIZE + |f.payload|;
    Be32Decodes(|f.payload|);
    assert Wire(frames) == Encoding(f) + tail;
    PrefixOfConcat(Encoding(f), tail, t);
    assert Encoding(f)[1..5] == Be32(|f.payload|);
    assert t[..HEADER_SIZE] == Encoding(f)[..HEADER_SIZE];
    assert t[1..5] == t[..HEADER_SIZE][1..5] == Be32(|f.payload|);
  }

  /**
   A receiver that has seen only part of what was sent has parsed only messages
   that were sent, in order; and all of them once everything has arrived,
   unless it refused one of them.
  */
  lemma {:induction false} ParseOfPrefix(lim: Limits, frames: seq<Frame>, t: bytes)
    requires Encodable(frames) && t <= Wire(frames)
    ensures Parse(lim, t).messages <= Payloads(frames)
    ensures t == Wire(frames) && Parse(lim, t).verdict == Clean
            ==> Parse(lim, t) == Parsed(Payloads(frames), [], Clean)
    ensures AllAcceptable(lim, frames) ==> Parse(lim, t).verdict == Clean
  {
    if frames != [] && HEADER_SIZE <= |t| {
      HeadOfWire(frames, t);
      if HasHead(lim, t) {
        var tail := ArrivedHead(lim, frames, t);
        ParseOfPrefix(lim, frames[1..], tail);
        ConsPrefix(frames[0].payload, Parse(lim, tail).messages, Payloads(frames[1..]));
      }
    }
  }

  lemma ArrivedHead(lim: Limits, frames: seq<Frame>, t: bytes) returns (tail: bytes)
    requires Encodable(frames) && frames != [] && t <= Wire(frames) && HasHead(lim, t)
    ensures tail <= Wire(frames[1..]) && (t == Wire(frames) ==> tail == Wire(frames[1..]))
    ensures Parse(lim, t) == Parse(lim, tail).After([frames[0].payload])
    ensures Payloads(frames) == [frames[0].payload] + Payloads(frames[1..])
  {
    HeadOfWire(frames, t);
    tail := t[HEADER_SIZE + |frames[0].payload|..];
    ParseFrame(lim, frames[0], tail);
    assert Wire(frames) == Encoding(frames[0]) + Wire(frames[1..]);
  }

  lemma ConsPrefix<T>(x: T, a: seq<T>, b: seq<T>)
    ensures a <= b ==> [x] + a <= [x] + b
  {}

  /** A receiver that ignores the flag sees the same stream, as long as no flag is reserved. */
  lemma {:induction false} LenientAgrees(max: nat, s: bytes)
    requires Parse(Limits(max, true), s).verdict != BadFlag
    ensures Parse(Limits(max, false), s) == Parse(Limits(max, true), s)
    decreases |s|
  {
    if HEADER_SIZE <= |s| && Judge(Limits(max, true), s) == Clean {
      var end := HEADER_SIZE + FromBe32(s[1..5]);
      if end <= |s| {
        LenientAgrees(max, s[end..]);
      }
    }
  }
}
