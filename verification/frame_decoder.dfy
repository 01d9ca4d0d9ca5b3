/** The decoder of a unary call's single message (src/protocol/framing.cc, framing.h). */
module Decoder {
  import opened Bytes
  import opened Lpm

  datatype State = AwaitingHeader | AwaitingPayload | Done | Error

  /** The wording of an error. It is the one field that chunk boundaries can change. */
  datatype ErrorText =
    | NoText
    | ReservedFlag(flag: byte)
    | LengthExceeds(len: nat, limit: nat)
    | UnexpectedBytes
    | SecondMessage
    | Incomplete

  /** Every field of the decoder but the error text. */
  datatype View = View(
    state: State, hasMessage: bool, limitExceeded: bool,
    header: bytes, flag: byte, payloadLen: nat, payload: bytes)
  {
    function Buffered(): bytes {
      header + payload
    }
  }

  /** The fields after the octets `s`, whatever the chunks were. */
  function Decode(max: nat, s: bytes): View {
    if |s| < HEADER_SIZE then View(AwaitingHeader, false, false, s, 0, 0, [])
    else
      var header, flag, len, body := s[..HEADER_SIZE], s[0], FromBe32(s[1..5]), s[HEADER_SIZE..];
      match Judge(Limits(max, true), s)
      case BadFlag => View(Error, false, false, header, flag, 0, [])
      case TooLarge => View(Error, false, true, header, flag, len, [])
      case Clean =>
        if |body| < len then View(AwaitingPayload, false, false, header, flag, len, body)
        else View(if |body| == len then Done else Error, true, false, header, flag, len, body[..len])
  }

  function FeedView(max: nat, v: View, chunk: bytes): View {
    if v.state == Error then v else Decode(max, v.Buffered() + chunk)
  }

  /** The end-of-stream rule: only between messages or after one may a stream end. */
  function EosView(v: View): View {
    if v.state == Error || v.state == Done || (v.state == AwaitingHeader && v.header == []) then v
    else v.(state := Error)
  }

  function FeedAll(max: nat, v: View, chunks: seq<bytes>): View
    decreases |chunks|
  {
    if chunks == [] then v else FeedAll(max, FeedView(max, v, chunks[0]), chunks[1..])
  }

  lemma DecodeBuffers(max: nat, s: bytes)
    ensures Decode(max, s).state != Error ==> Decode(max, s).Buffered() == s
  {
    if HEADER_SIZE <= |s| {
      assert s == s[..HEADER_SIZE] + s[HEADER_SIZE..];
    }
  }

  lemma DecodeSplits(max: nat, a: bytes, b: bytes)
    ensures FeedView(max, Decode(max, a), b) == Decode(max, a + b)
  {
    DecodeBuffers(max, a);
    if Decode(max, a).state == Error {
      var s := a + b;
      assert s[..HEADER_SIZE] == a[..HEADER_SIZE] && s[1..5] == a[1..5];
      var len := FromBe32(a[1..5]);
      if Judge(Limits(max, true), a) == Clean {
        assert s[HEADER_SIZE..][..len] == a[HEADER_SIZE..][..len];
      }
    }
  }

  /** After any sequence of feeds the fields are a function of the concatenated octets. */
  lemma {:induction false} ChunkingIsInvisible(max: nat, a: bytes, chunks: seq<bytes>)
    ensures FeedAll(max, Decode(max, a), chunks) == Decode(max, a + Concat(chunks))
    decreases |chunks|
  {
    if chunks == [] {
      assert a + Concat(chunks) == a;
    } else {
      DecodeSplits(max, a, chunks[0]);
      ChunkingIsInvisible(max, a + chunks[0], chunks[1..]);
      assert (a + chunks[0]) + Concat(chunks[1..]) == a + Concat(chunks);
    }
  }

  /** A complete message is held exactly when the octets are one acceptable frame, the held one. */
  lemma DoneIsOneFrame(max: nat, s: bytes)
    ensures var v := Decode(max, s);
            v.state == Done <==>
            (|v.payload| <= MAX_PAYLOAD && Acceptable(Limits(max, true), Frame(v.flag, v.payload))
             && s == Encoding(Frame(v.flag, v.payload)))
    ensures Decode(max, s).state == Done ==> Decode(max, s).hasMessage && !Decode(max, s).limitExceeded
  {
    var v := Decode(max, s);
    if v.state == Done {
      EncodingOfHead(Limits(max, true), s);
      assert s[HEADER_SIZE..][..v.payloadLen] == s[HEADER_SIZE..];
      assert s[..HEADER_SIZE + v.payloadLen] == s;
    }
    if |v.payload| <= MAX_PAYLOAD && Acceptable(Limits(max, true), Frame(v.flag, v.payload)) && s == Encoding(Frame(v.flag, v.payload)) {
      FrameIsDone(max, Frame(v.flag, v.payload));
    }
  }

  lemma FrameIsDone(max: nat, f: Frame)
    requires Acceptable(Limits(max, true), f)
    ensures var v := Decode(max, Encoding(f)); v.state == Done && v.flag == f.flag && v.payload == f.payload
  {
    var s := Encoding(f);
    Be32Decodes(|f.payload|);
    assert s[1..5] == Be32(|f.payload|);
    assert s[HEADER_SIZE..] == f.payload == f.payload[..|f.payload|];
  }

  /** At end of stream: done on exactly the encodings of acceptable frames, idle on nothing, an error otherwise. */
  lemma EosVerdict(max: nat, s: bytes)
    ensures var v := EosView(Decode(max, s));
            && (v.state == Done <==> exists f: Frame :: Acceptable(Limits(max, true), f) && s == Encoding(f))
            && (v.state == AwaitingHeader <==> s == [])
            && v.state != AwaitingPayload
  {
    DoneIsOneFrame(max, s);
    var v := Decode(max, s);
    if v.state == Done {
      assert Acceptable(Limits(max, true), Frame(v.flag, v.payload));
    }
    forall f: Frame | Acceptable(Limits(max, true), f) && s == Encoding(f)
      ensures v.state == Done
    {
      FrameIsDone(max, f);
    }
  }

  /**
   The decoder agrees with the stream parse: it is done exactly on a one-message
   stream, and past it exactly when a stream would go on.
  */
  lemma AgreesWithParse(max: nat, s: bytes)
    ensures var v, p := Decode(max, s), Parse(Limits(max, true), s);
            && (v.hasMessage <==> p.messages != [])
            && (v.hasMessage ==> v.payload == p.messages[0])
            && (v.state == Done <==> p == Parsed([v.payload], [], Clean))
            && (v.limitExceeded ==> p.verdict == TooLarge)
  {
    if HEADER_SIZE <= |s| && Judge(Limits(max, true), s) == Clean {
      var len := FromBe32(s[1..5]);
      if HEADER_SIZE + len <= |s| {
        assert s[HEADER_SIZE..][..len] == s[HEADER_SIZE..HEADER_SIZE + len];
        assert s[HEADER_SIZE + len..] == [] <==> |s| == HEADER_SIZE + len;
        var q := Parse(Limits(max, true), s[HEADER_SIZE + len..]);
        assert |s| == HEADER_SIZE + len ==> q == Parsed([], [], Clean);
        if q.messages == [] {
          assert q.rest == s[HEADER_SIZE + len..];
        }
      }
    }
  }

  lemma HeaderAlone(max: nat, h: bytes)
    requires |h| == HEADER_SIZE
    ensures var flag, len := h[0], FromBe32(h[1..5]);
            Decode(max, h) ==
              if flag > 1 then View(Error, false, false, h, flag, 0, [])
              else if len > max then View(Error, false, true, h, flag, len, [])
              else View(if len == 0 then Done else AwaitingPayload, len == 0, false, h, flag, len, [])
  {
    assert h[..HEADER_SIZE] == h && h[HEADER_SIZE..] == [];
  }

  /** While the header is awaited, octets may move from the chunk to the header. */
  lemma HeaderPass(max: nat, v: View, chunk: bytes, take: nat)
    requires v == Decode(max, v.Buffered()) && v.state == AwaitingHeader && take <= |chunk|
    ensures v == View(AwaitingHeader, false, false, v.header, 0, 0, [])
    ensures FeedView(max, v, chunk) == FeedView(max, Decode(max, v.header + chunk[..take]), chunk[take..])
  {
    assert v.Buffered() + chunk == (v.header + chunk[..take]) + chunk[take..];
    DecodeSplits(max, v.header + chunk[..take], chunk[take..]);
  }

  /** With an accepted header held, only the amount of payload matters. */
  lemma BodyOnly(max: nat, h: bytes, body: bytes, later: bytes)
    requires |h| == HEADER_SIZE && Judge(Limits(max, true), h) == Clean
    requires |body| <= FromBe32(h[1..5])
    ensures var flag, len := h[0], FromBe32(h[1..5]);
            && Decode(max, h + body) ==
                 View(if |body| == len then Done else AwaitingPayload, |body| == len, false, h, flag, len, body)
            && (|body| == len && later != [] ==>
                  Decode(max, (h + body) + later) == View(Error, true, false, h, flag, len, body))
  {
    var s, t := h + body, (h + body) + later;
    assert s[..HEADER_SIZE] == h && s[1..5] == h[1..5] && s[HEADER_SIZE..] == body;
    assert t[..HEADER_SIZE] == h && t[1..5] == h[1..5] && t[HEADER_SIZE..] == body + later;
    assert body[..|body|] == body;
    if |body| == FromBe32(h[1..5]) {
      assert (body + later)[..|body|] == body;
    }
  }

  /** Once a message is complete, any further octet is an error that keeps the message. */
  lemma MoreIsAnError(max: nat, v: View, chunk: bytes)
    requires v == Decode(max, v.Buffered()) && v.state == Done && chunk != []
    ensures FeedView(max, v, chunk) == v.(state := Error)
    ensures v.flag <= 1
  {
    var a, s := v.Buffered(), v.Buffered() + chunk;
    assert s[..HEADER_SIZE] == a[..HEADER_SIZE] && s[1..5] == a[1..5];
    assert s[HEADER_SIZE..][..v.payloadLen] == a[HEADER_SIZE..];
  }

  /** The error text set when feeding a decoder in state `before` ends in the failed fields `w`. */
  function FeedText(max: nat, before: State, w: View): ErrorText {
    if before == Error || w.state != Error then NoText
    else if w.flag > 1 then ReservedFlag(w.flag)
    else if w.limitExceeded then LengthExceeds(w.payloadLen, max)
    else if before == Done || w.payloadLen == 0 then SecondMessage
    else UnexpectedBytes
  }

  /** All fields of the decoder after a feed: the text is set when the decoder fails, and then stays. */
  function FeedBoth(max: nat, v: View, text: ErrorText, chunk: bytes): (View, ErrorText) {
    var w := FeedView(max, v, chunk);
    (w, if v.state != Error && w.state == Error then FeedText(max, v.state, w) else text)
  }

  /** And after the end of the stream. */
  function EosBoth(v: View, text: ErrorText): (View, ErrorText) {
    (EosView(v), if v.state != Error && EosView(v).state == Error then Incomplete else text)
  }

  function FeedAllBoth(max: nat, v: View, text: ErrorText, chunks: seq<bytes>): (View, ErrorText)
    decreases |chunks|
  {
    if chunks == [] then (v, text)
    else
      var (w, t) := FeedBoth(max, v, text, chunks[0]);
      FeedAllBoth(max, w, t, chunks[1..])
  }

  /** The octets `a` and some prefix of `chunks` are the encoding of the frame held in `w`. */
  ghost predicate CutAtFrame(a: bytes, chunks: seq<bytes>, w: View) {
    exists i :: 0 <= i <= |chunks| && CutAt(a, chunks, i, w)
  }

  ghost predicate CutAt(a: bytes, chunks: seq<bytes>, i: nat, w: View)
    requires i <= |chunks|
  {
    |w.payload| <= MAX_PAYLOAD && a + Concat(chunks[..i]) == Encoding(Frame(w.flag, w.payload))
  }

  /**
   The text that octets leave behind. All is in the fields `w` but one thing: after a
   non-empty message with octets behind it, whether a chunk ended where the message did.
  */
  function TextOf(max: nat, w: View, cut: bool): ErrorText {
    if w.state != Error then NoText
    else if w.flag > 1 then ReservedFlag(w.flag)
    else if w.limitExceeded then LengthExceeds(w.payloadLen, max)
    else if w.payloadLen == 0 || cut then SecondMessage
    else UnexpectedBytes
  }

  lemma {:induction false} FailedStaysFailed(max: nat, v: View, text: ErrorText, chunks: seq<bytes>)
    requires v.state == Error
    ensures FeedAllBoth(max, v, text, chunks) == (v, text)
    decreases |chunks|
  {
    if chunks != [] {
      FailedStaysFailed(max, v, text, chunks[1..]);
    }
  }

  /** A complete frame, and octets behind it: only the state before them can tell. */
  lemma DoneBefore(max: nat, a: bytes, chunks: seq<bytes>)
    requires chunks != [] && Decode(max, a).state != Error
    requires var w := Decode(max, a + chunks[0]); w.state == Error && w.hasMessage
    ensures CutAtFrame(a, chunks, Decode(max, a + chunks[0])) <==> Decode(max, a).state == Done
  {
    var v, w := Decode(max, a), Decode(max, a + chunks[0]);
    DecodeSplits(max, a, chunks[0]);
    DecodeBuffers(max, a);
    if v.state == Done {
      DoneIsOneFrame(max, a);
      assert a + [] == a;
      MoreIsAnError(max, v, chunks[0]);
      assert a + Concat(chunks[..0]) == a;
      assert CutAt(a, chunks, 0, w);
    }
    HeldFrame(max, a + chunks[0]);
    FrameIsDone(max, Frame(w.flag, w.payload));
    assert a + Concat(chunks[..0]) == a;
    forall i | 0 < i <= |chunks| ensures !CutAt(a, chunks, i, w) {
      NoFrameAfterFailure(max, a, chunks, i, w);
    }
  }

  lemma NoFrameAfterFailure(max: nat, a: bytes, chunks: seq<bytes>, i: nat, w: View)
    requires 0 < i <= |chunks| && Decode(max, a + chunks[0]).state == Error
    requires |w.payload| <= MAX_PAYLOAD && Acceptable(Limits(max, true), Frame(w.flag, w.payload))
    ensures !CutAt(a, chunks, i, w)
  {
    assert chunks[..i][0] == chunks[0] && chunks[..i][1..] == chunks[1..i];
    assert a + Concat(chunks[..i]) == (a + chunks[0]) + Concat(chunks[1..i]);
    DecodeSplits(max, a + chunks[0], Concat(chunks[1..i]));
    FrameIsDone(max, Frame(w.flag, w.payload));
  }

  /** A message that is held is acceptable, also when octets follow it. */
  lemma HeldFrame(max: nat, s: bytes)
    ensures var w := Decode(max, s);
            w.hasMessage ==> |w.payload| == w.payloadLen <= MAX_PAYLOAD && Acceptable(Limits(max, true), Frame(w.flag, w.payload))
  {
    if HEADER_SIZE <= |s| {
      Be32Encodes(s[1..5]);
    }
  }

  lemma CutOneLater(max: nat, a: bytes, chunks: seq<bytes>, w: View)
    requires chunks != [] && Decode(max, a + chunks[0]).state != Error
    requires |w.payload| <= MAX_PAYLOAD ==> Acceptable(Limits(max, true), Frame(w.flag, w.payload))
    ensures CutAtFrame(a, chunks, w) <==> CutAtFrame(a + chunks[0], chunks[1..], w)
  {
    forall i | 0 < i <= |chunks| ensures a + Concat(chunks[..i]) == (a + chunks[0]) + Concat(chunks[1..][..i - 1]) {
      assert chunks[..i][0] == chunks[0] && chunks[..i][1..] == chunks[1..][..i - 1];
    }
    if CutAtFrame(a, chunks, w) {
      var i: nat :| i <= |chunks| && CutAt(a, chunks, i, w);
      if i == 0 {
        assert a + Concat(chunks[..0]) == a;
        FrameIsDone(max, Frame(w.flag, w.payload));
        NothingFollows(max, a, chunks[0]);
        assert (a + chunks[0]) + Concat(chunks[1..][..0]) == a;
        assert CutAt(a + chunks[0], chunks[1..], 0, w);
      } else {
        assert CutAt(a + chunks[0], chunks[1..], i - 1, w);
      }
    }
    if CutAtFrame(a + chunks[0], chunks[1..], w) {
      var j: nat :| j <= |chunks| - 1 && CutAt(a + chunks[0], chunks[1..], j, w);
      assert CutAt(a, chunks, j + 1, w);
    }
  }

  lemma NothingFollows(max: nat, a: bytes, chunk: bytes)
    requires Decode(max, a).state == Done && Decode(max, a + chunk).state != Error
    ensures chunk == []
  {
    if chunk != [] {
      DecodeBuffers(max, a);
      DecodeSplits(max, a, chunk);
      MoreIsAnError(max, Decode(max, a), chunk);
    }
  }

  lemma {:induction false} TextAfter(max: nat, a: bytes, chunks: seq<bytes>)
    requires Decode(max, a).state != Error
    ensures var w := Decode(max, a + Concat(chunks));
            FeedAllBoth(max, Decode(max, a), NoText, chunks) == (w, TextOf(max, w, CutAtFrame(a, chunks, w)))
    decreases |chunks|
  {
    if chunks == [] {
      assert a + Concat(chunks) == a;
    } else {
      var v, w := Decode(max, a), Decode(max, a + chunks[0]);
      var end := Decode(max, a + Concat(chunks));
      assert (a + chunks[0]) + Concat(chunks[1..]) == a + Concat(chunks);
      DecodeSplits(max, a, chunks[0]);
      DecodeSplits(max, a + chunks[0], Concat(chunks[1..]));
      if w.state == Error {
        FailedStaysFailed(max, w, FeedText(max, v.state, w), chunks[1..]);
        FailsOnce(max, a, chunks);
      } else {
        TextAfter(max, a + chunks[0], chunks[1..]);
        if end.state == Error && end.flag <= 1 && !end.limitExceeded {
          HeldFrame(max, a + Concat(chunks));
          FailedHolds(max, a + Concat(chunks));
          CutOneLater(max, a, chunks, end);
        }
      }
    }
  }

  /** The chunk with which the decoder fails sets the text for good. */
  lemma FailsOnce(max: nat, a: bytes, chunks: seq<bytes>)
    requires chunks != [] && Decode(max, a).state != Error && Decode(max, a + chunks[0]).state == Error
    ensures var w := Decode(max, a + chunks[0]);
            FeedText(max, Decode(max, a).state, w) == TextOf(max, w, CutAtFrame(a, chunks, w))
  {
    var w := Decode(max, a + chunks[0]);
    FailedHolds(max, a + chunks[0]);
    if w.flag <= 1 && !w.limitExceeded {
      DoneBefore(max, a, chunks);
    }
  }

  lemma FailedHolds(max: nat, s: bytes)
    ensures var w := Decode(max, s); w.state == Error && w.flag <= 1 && !w.limitExceeded ==> w.hasMessage
  {}

  /**
   The error text after any sequence of feeds and the end of the stream: a function of
   the octets, except that after a non-empty complete message with octets behind it the
   text is SecondMessage if and only if some chunk ended where the message did.
  */
  lemma TextIsOfOctetsAndCut(max: nat, chunks: seq<bytes>)
    ensures var w := Decode(max, Concat(chunks));
            var (v, text) := FeedAllBoth(max, Decode(max, []), NoText, chunks);
            && v == w && text == TextOf(max, w, CutAtFrame([], chunks, w))
            && EosBoth(v, text) == (EosView(w), if w.state != Error && EosView(w).state == Error then Incomplete else text)
  {
    assert [] + Concat(chunks) == Concat(chunks);
    TextAfter(max, [], chunks);
  }

  /** So the same octets, one frame and one more, fail with different texts in one chunk and in two. */
  lemma TextDependsOnChunking(max: nat, f: Frame, x: byte)
    requires Acceptable(Limits(max, true), f) && f.payload != []
    ensures var start, s := Decode(max, []), Encoding(f);
            && FeedAllBoth(max, start, NoText, [s + [x]]) == (Decode(max, s + [x]), UnexpectedBytes)
            && FeedAllBoth(max, start, NoText, [s, [x]]) == (Decode(max, s + [x]), SecondMessage)
  {
    var s := Encoding(f);
    var w := Decode(max, s + [x]);
    FrameIsDone(max, f);
    DecodeBuffers(max, s);
    DecodeSplits(max, s, [x]);
    MoreIsAnError(max, Decode(max, s), [x]);
    Be32Decodes(|f.payload|);
    assert s[1..5] == Be32(|f.payload|);
    assert [s + [x]][1..] == [] && [s, [x]][1..] == [[x]] && [[x]][1..] == [];
    assert Concat([s + [x]]) == s + [x];
    assert Concat([[x]]) == [x] && Concat([s, [x]]) == s + [x];
    TextIsOfOctetsAndCut(max, [s + [x]]);
    TextIsOfOctetsAndCut(max, [s, [x]]);
    assert [s, [x]][..1] == [s] && [s][1..] == [] && Concat([s]) == s;
    assert [] + Concat([s, [x]][..1]) == s;
    assert CutAt([], [s, [x]], 1, w);
    forall i | 0 <= i <= 1 ensures !CutAt([], [s + [x]], i, w) {
      assert [s + [x]][..i] == if i == 0 then [] else [s + [x]];
      assert |[] + Concat([s + [x]][..i])| != |s|;
    }
  }

  class FrameDecoder {
    const maxMessageSize: nat
    const headerBuf: array<byte>
    var state: State
    var hasMessage: bool
    var limitExceeded: bool
    var headerBytes: nat
    var compressFlag: byte
    var payloadLen: nat
    var payload: bytes
    var errorText: ErrorText

    ghost predicate Valid()
      reads this, headerBuf
    {
      && headerBuf.Length == HEADER_SIZE && headerBytes <= HEADER_SIZE
      && (state != Error ==> Fields() == Decode(maxMessageSize, Fields().Buffered()))
    }

    ghost function Fields(): View
      reads this, headerBuf
      requires headerBytes <= headerBuf.Length
    {
      View(state, hasMessage, limitExceeded, headerBuf[..headerBytes], compressFlag, payloadLen, payload)
    }

    constructor (maxMessageSize: nat)
      ensures Valid() && fresh(headerBuf) && this.maxMessageSize == maxMessageSize
      ensures Fields() == Decode(maxMessageSize, []) && errorText == NoText
    {
      this.maxMessageSize := maxMessageSize;
      headerBuf := new byte[HEADER_SIZE](_ => 0);
      state, hasMessage, limitExceeded := AwaitingHeader, false, false;
      headerBytes, compressFlag, payloadLen, payload, errorText := 0, 0, 0, [], NoText;
    }

    /** Judges a complete header; called with the decoder still awaiting it. */
    method TryParseHeader()
      requires headerBuf.Length == HEADER_SIZE && headerBytes <= HEADER_SIZE
      requires Fields() == View(AwaitingHeader, false, false, headerBuf[..headerBytes], 0, 0, [])
      modifies this
      ensures headerBytes == old(headerBytes)
      ensures Fields() == Decode(maxMessageSize, headerBuf[..headerBytes])
      ensures errorText == if state == Error then FeedText(maxMessageSize, AwaitingHeader, Fields()) else old(errorText)
    {
      if headerBytes < HEADER_SIZE { return; }
      ghost var header := headerBuf[..headerBytes];
      HeaderAlone(maxMessageSize, header);
      assert header[1..5] == headerBuf[1..5];
      compressFlag := headerBuf[0];
      if compressFlag != 0 && compressFlag != 1 {
        state, errorText := Error, ReservedFlag(compressFlag);
        return;
      }
      payloadLen := FromBe32(headerBuf[1..5]);
      if payloadLen > maxMessageSize {
        limitExceeded := true;
        state, errorText := Error, LengthExceeds(payloadLen, maxMessageSize);
        return;
      }
      payload := [];
      if payloadLen == 0 {
        hasMessage, state := true, Done;
      } else {
        state := AwaitingPayload;
      }
    }

    /** Copies the octets of `chunk` that the header still lacks. */
    method FillHeader(chunk: bytes) returns (take: nat)
      requires headerBuf.Length == HEADER_SIZE && headerBytes < HEADER_SIZE
      modifies this`headerBytes, headerBuf
      ensures take == if HEADER_SIZE - old(headerBytes) < |chunk| then HEADER_SIZE - old(headerBytes) else |chunk|
      ensures headerBytes == old(headerBytes) + take
      ensures headerBuf[..headerBytes] == old(headerBuf[..headerBytes]) + chunk[..take]
    {
      var need := HEADER_SIZE - headerBytes;
      take := if need < |chunk| then need else |chunk|;
      forall i | 0 <= i < take {
        headerBuf[headerBytes + i] := chunk[i];
      }
      headerBytes := headerBytes + take;
    }

    /** The loop pass that fills the header. */
    method TakeHeader(chunk: bytes) returns (later: bytes)
      requires Valid() && state == AwaitingHeader && chunk != []
      modifies this, headerBuf
      ensures Valid() && |later| < |chunk|
      ensures FeedView(maxMessageSize, old(Fields()), chunk) == FeedView(maxMessageSize, Fields(), later)
      ensures errorText == if state == Error then FeedText(maxMessageSize, AwaitingHeader, Fields()) else old(errorText)
      ensures state == Done ==> payloadLen == 0
    {
      ghost var before := Fields();
      var take := FillHeader(chunk);
      later := chunk[take..];
      ghost var header := headerBuf[..headerBytes];
      HeaderPass(maxMessageSize, before, chunk, take);
      TryParseHeader();
      DecodeBuffers(maxMessageSize, header);
    }

    /** The loop pass that collects payload. */
    method TakePayload(chunk: bytes) returns (later: bytes)
      requires Valid() && state == AwaitingPayload && chunk != []
      modifies this
      ensures Valid() && |later| < |chunk|
      ensures FeedView(maxMessageSize, old(Fields()), chunk) == FeedView(maxMessageSize, Fields(), later)
      ensures (state == Error <==> later != []) && payloadLen == old(payloadLen)
      ensures errorText == if state == Error then FeedText(maxMessageSize, AwaitingPayload, Fields()) else old(errorText)
    {
      ghost var header, seen := headerBuf[..headerBytes], Fields().Buffered();
      var need := payloadLen - |payload|;
      var take := if need < |chunk| then need else |chunk|;
      payload := payload + chunk[..take];
      later := chunk[take..];
      BodyOnly(maxMessageSize, header, payload, later);
      assert seen + chunk == (header + payload) + later;
      if |payload| == payloadLen {
        hasMessage, state := true, Done;
        if later != [] {
          state, errorText := Error, UnexpectedBytes;
        }
      }
    }

    /** One pass of the feed loop. */
    method Pass(chunk: bytes) returns (later: bytes)
      requires Valid() && state != Error && chunk != []
      modifies this, headerBuf
      ensures Valid()
      ensures FeedView(maxMessageSize, old(Fields()), chunk) == FeedView(maxMessageSize, Fields(), later)
      ensures state != Error ==> |later| < |chunk|
      ensures errorText == if state == Error then FeedText(maxMessageSize, old(state), Fields()) else old(errorText)
      ensures state == Done && later != [] ==> payloadLen == 0
      ensures old(state) == Done ==> state == Error
    {
      later := chunk;
      match state
      case AwaitingHeader =>
        later := TakeHeader(chunk);
      case AwaitingPayload =>
        later := TakePayload(chunk);
      case Done =>
        MoreIsAnError(maxMessageSize, Fields(), chunk);
        state, errorText := Error, SecondMessage;
    }

    method Feed(data: bytes)
      requires Valid()
      modifies this, headerBuf
      ensures Valid()
      ensures (Fields(), errorText) == FeedBoth(maxMessageSize, old(Fields()), old(errorText), data)
    {
      if state == Error { return; }
      ghost var start := state;
      ghost var end := FeedView(maxMessageSize, Fields(), data);
      var chunk := data;
      while chunk != []
        invariant Valid() && state != Error && errorText == old(errorText)
        invariant end == FeedView(maxMessageSize, Fields(), chunk)
        invariant if chunk == data then state == start
                  else start != Done && (state == Done && chunk != [] ==> payloadLen == 0)
        decreases |chunk|
      {
        chunk := Pass(chunk);
        if state == Error { return; }
      }
      assert Fields().Buffered() + [] == Fields().Buffered();
    }

    method MarkEos()
      requires Valid()
      modifies this
      ensures Valid()
      ensures (Fields(), errorText) == EosBoth(old(Fields()), old(errorText))
    {
      if state == Error || state == Done { return; }
      if state == AwaitingHeader && headerBytes == 0 { return; }
      state, errorText := Error, Incomplete;
    }

    method Reset()
      requires Valid()
      modifies this
      ensures Valid()
      ensures Fields() == Decode(maxMessageSize, []) && errorText == NoText
    {
      state, hasMessage, limitExceeded := AwaitingHeader, false, false;
      headerBytes, compressFlag, payloadLen, payload, errorText := 0, 0, 0, [], NoText;
    }
  }
}
