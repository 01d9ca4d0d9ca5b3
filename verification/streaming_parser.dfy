/**
 Incremental parsing of a message stream: what feeding one chunk to a parser
 does, as a function of the parser's state, and what feeding many amounts to.
*/
module Incremental {
  import opened Bytes
  import opened Lpm

  /** The fields an incremental parser keeps between chunks. */
  datatype Partial = Partial(header: bytes, payloadLen: nat, payload: bytes) {
    predicate WellFormed() {
      && |header| <= HEADER_SIZE
      && |payload| <= payloadLen
      && (|header| < HEADER_SIZE ==> payloadLen == 0)
    }

    function Buffered(): bytes {
      header + payload
    }

    /** The parser is waiting for octets of a message it has not refused. */
    predicate InStep(lim: Limits) {
      && WellFormed()
      && (|header| == HEADER_SIZE ==>
            Judge(lim, header) == Clean && payloadLen == FromBe32(header[1..5]) && |payload| < payloadLen)
    }

    /** How many further octets complete the message whose header is held. */
    function Missing(): nat
      requires WellFormed()
    {
      if |payload| == payloadLen then 1 else payloadLen - |payload|
    }
  }

  const IDLE := Partial([], 0, [])

  datatype Outcome = Outcome(messages: seq<bytes>, state: Partial, verdict: Verdict) {
    function After(earlier: seq<bytes>): Outcome {
      this.(messages := earlier + messages)
    }
  }

  lemma AfterAfter(o: Outcome, a: seq<bytes>, b: seq<bytes>)
    ensures o.After(b).After(a) == o.After(a + b)
  {
    assert a + (b + o.messages) == (a + b) + o.messages;
  }

  /** The fields left behind by a parse that stopped before `rest`. */
  function Stopped(lim: Limits, rest: bytes): Partial {
    if |rest| < HEADER_SIZE then Partial(rest, 0, [])
    else
      var header, len := rest[..HEADER_SIZE], FromBe32(rest[1..5]);
      match Judge(lim, rest)
      case Clean => Partial(header, len, rest[HEADER_SIZE..])
      case BadFlag => Partial(header, 0, [])
      case TooLarge => Partial(header, len, [])
  }

  function Scan(lim: Limits, s: bytes): Outcome {
    var p := Parse(lim, s);
    Outcome(p.messages, Stopped(lim, p.rest), p.verdict)
  }

  /**
   Feeding one chunk, from any state: also from one in which a message was
   refused, where the parser goes on as if the refused header had been accepted.
  */
  function Resume(lim: Limits, st: Partial, chunk: bytes): Outcome
    requires st.WellFormed()
  {
    if chunk == [] then Outcome([], st, Clean)
    else if |st.header| < HEADER_SIZE then Scan(lim, st.header + chunk)
    else
      var need := st.payloadLen - |st.payload|;
      if |chunk| < need then Outcome([], st.(payload := st.payload + chunk), Clean)
      else Scan(lim, chunk[need..]).After([st.payload + chunk[..need]])
  }

  lemma ScanIsInStep(lim: Limits, s: bytes)
    ensures var o := Scan(lim, s);
            && o.state.WellFormed()
            && (o.verdict == Clean ==> o.state.InStep(lim) && o.state.Buffered() == Parse(lim, s).rest)
            && (o.verdict != Clean ==>
                  |o.state.header| == HEADER_SIZE && o.state.payload == []
                  && Judge(lim, o.state.header) == o.verdict)
    decreases |s|
  {
    RestIsBlocked(lim, s);
    var rest := Parse(lim, s).rest;
    if HEADER_SIZE <= |rest| {
      assert rest[..HEADER_SIZE][1..5] == rest[1..5];
    }
  }

  /** As long as nothing was refused, feeding a chunk is parsing everything seen so far. */
  lemma ResumeIsScan(lim: Limits, st: Partial, chunk: bytes)
    requires st.InStep(lim)
    ensures Resume(lim, st, chunk) == Scan(lim, st.Buffered() + chunk)
  {
    var s := st.Buffered() + chunk;
    if |st.header| == HEADER_SIZE {
      assert s[1..5] == st.header[1..5];
      assert s[HEADER_SIZE..] == st.payload + chunk;
      assert s[..HEADER_SIZE] == st.header;
      var need := st.payloadLen - |st.payload|;
      if need <= |chunk| {
        assert s[HEADER_SIZE..HEADER_SIZE + st.payloadLen] == st.payload + chunk[..need];
        assert s[HEADER_SIZE + st.payloadLen..] == chunk[need..];
      }
    } else {
      assert st.payload == [];
      assert s == st.header + chunk;
    }
  }

  /** A refusal is final for the parse, whatever follows. */
  lemma ScanSplits(lim: Limits, a: bytes, b: bytes)
    ensures Scan(lim, a).verdict != Clean ==> Scan(lim, a + b) == Scan(lim, a)
    ensures Scan(lim, a).verdict == Clean ==>
              Scan(lim, a + b) == Scan(lim, Scan(lim, a).state.Buffered() + b).After(Scan(lim, a).messages)
  {
    ScanIsInStep(lim, a);
    RestIsBlocked(lim, a);
    ParseSplits(lim, a, b);
    var rest := Parse(lim, a).rest;
    if Scan(lim, a).verdict != Clean {
      assert HEADER_SIZE <= |rest| && Judge(lim, rest) != Clean;
      assert (rest + b)[1..5] == rest[1..5];
      assert (rest + b)[..HEADER_SIZE] == rest[..HEADER_SIZE];
      assert Parse(lim, rest + b) == Parsed([], rest + b, Judge(lim, rest));
    }
  }

  // ----- One pass of a parser's loop -----

  /**
   One loop pass from `st` on `chunk`: it hands over `out` and either refuses or
   goes on from `later`, without changing what the whole feed amounts to.
  */
  ghost predicate Advances(lim: Limits, st: Partial, chunk: bytes,
                           verdict: Verdict, out: seq<bytes>, next: Partial, later: bytes)
    requires st.WellFormed() && next.WellFormed()
  {
    Resume(lim, st, chunk)
    == if verdict == Clean then Resume(lim, next, later).After(out) else Outcome(out, next, verdict)
  }

  function Min(a: nat, b: nat): nat {
    if a < b then a else b
  }

  /** What a complete header decides, whatever follows it. */
  lemma ScanOfHeader(lim: Limits, header: bytes, later: bytes)
    requires |header| == HEADER_SIZE
    ensures var len := FromBe32(header[1..5]);
            match Judge(lim, header)
            case BadFlag => Scan(lim, header + later) == Outcome([], Partial(header, 0, []), BadFlag)
            case TooLarge => Scan(lim, header + later) == Outcome([], Partial(header, len, []), TooLarge)
            case Clean =>
              if len == 0 then Scan(lim, header + later) == Scan(lim, later).After([[]])
              else Scan(lim, header + later) == Resume(lim, Partial(header, len, []), later)
  {
    var s := header + later;
    assert s[..HEADER_SIZE] == header;
    assert s[1..5] == header[1..5];
    var len := FromBe32(header[1..5]);
    match Judge(lim, header)
    case Clean =>
      if len == 0 {
        assert s[HEADER_SIZE..] == later && s[HEADER_SIZE..HEADER_SIZE] == [];
        assert Parse(lim, s) == Parse(lim, later).After([[]]);
        assert Scan(lim, s) == Scan(lim, later).After([[]]);
      } else {
        var st := Partial(header, len, []);
        ResumeIsScan(lim, st, later);
        assert st.Buffered() == header;
      }
    case BadFlag =>
      assert Parse(lim, s) == Parsed([], s, BadFlag);
    case TooLarge =>
      assert Parse(lim, s) == Parsed([], s, TooLarge);
  }

  /** A pass that collects header octets, of `st` with fewer than five: verdict, messages, fields and octets left. */
  function HeaderPass(lim: Limits, st: Partial, chunk: bytes): (Verdict, seq<bytes>, Partial, bytes)
    requires |st.header| < HEADER_SIZE
  {
    var take := Min(HEADER_SIZE - |st.header|, |chunk|);
    var header, later := st.header + chunk[..take], chunk[take..];
    if |header| < HEADER_SIZE then (Clean, [], Partial(header, 0, []), later)
    else
      var len := FromBe32(header[1..5]);
      match Judge(lim, header)
      case BadFlag => (BadFlag, [], Partial(header, 0, []), later)
      case TooLarge => (TooLarge, [], Partial(header, len, []), later)
      case Clean => if len == 0 then (Clean, [[]], IDLE, later) else (Clean, [], Partial(header, len, []), later)
  }

  lemma AbsorbHeader(lim: Limits, st: Partial, chunk: bytes)
    requires st.WellFormed() && |st.header| < HEADER_SIZE && chunk != []
    ensures var (verdict, out, next, later) := HeaderPass(lim, st, chunk);
            next.WellFormed() && Advances(lim, st, chunk, verdict, out, next, later)
  {
    var take := Min(HEADER_SIZE - |st.header|, |chunk|);
    var header, later := st.header + chunk[..take], chunk[take..];
    assert chunk == chunk[..take] + later;
    assert st.header + chunk == header + later;
    assert Resume(lim, st, chunk) == Scan(lim, header + later);
    if |header| < HEADER_SIZE {
      assert header + later == header;
    } else {
      ScanOfHeader(lim, header, later);
      IdleScans(lim, later);
      NoneEarlier(Resume(lim, Partial(header, FromBe32(header[1..5]), []), later));
    }
  }

  lemma NoneEarlier(o: Outcome)
    ensures o.After([]) == o
  {}

  lemma IdleScans(lim: Limits, chunk: bytes)
    ensures Resume(lim, IDLE, chunk) == Scan(lim, chunk)
  {
    assert [] + chunk == chunk;
  }

  lemma AbsorbPayload(lim: Limits, st: Partial, chunk: bytes)
    requires st.WellFormed() && |st.header| == HEADER_SIZE && chunk != []
    ensures var take := Min(st.payloadLen - |st.payload|, |chunk|);
            var payload, later := st.payload + chunk[..take], chunk[take..];
            if |payload| < st.payloadLen then
              Resume(lim, st, chunk) == Outcome([], st.(payload := payload), Clean) && later == []
            else
              Resume(lim, st, chunk) == Resume(lim, IDLE, later).After([payload])
  {
    var take := Min(st.payloadLen - |st.payload|, |chunk|);
    assert [] + chunk[take..] == chunk[take..];
    if |chunk| < st.payloadLen - |st.payload| {
      assert chunk[..take] == chunk;
    }
  }

  // ----- Many chunks -----

  /** A receiver that stops at the first refusal: every caller of a parser but one. */
  function FeedUntilRefused(lim: Limits, st: Partial, chunks: seq<bytes>): Outcome
    requires st.WellFormed()
    decreases |chunks|
  {
    if chunks == [] then Outcome([], st, Clean)
    else
      var o := Resume(lim, st, chunks[0]);
      ResumeIsWellFormed(lim, st, chunks[0]);
      if o.verdict != Clean then o else FeedUntilRefused(lim, o.state, chunks[1..]).After(o.messages)
  }

  /** A receiver that feeds on after a refusal: the server side of a bidirectional call. */
  function FeedOn(lim: Limits, st: Partial, chunks: seq<bytes>): seq<bytes>
    requires st.WellFormed()
    decreases |chunks|
  {
    if chunks == [] then []
    else
      ResumeIsWellFormed(lim, st, chunks[0]);
      var o := Resume(lim, st, chunks[0]);
      o.messages + FeedOn(lim, o.state, chunks[1..])
  }

  lemma ResumeIsWellFormed(lim: Limits, st: Partial, chunk: bytes)
    requires st.WellFormed()
    ensures Resume(lim, st, chunk).state.WellFormed()
    ensures st.InStep(lim) && Resume(lim, st, chunk).verdict == Clean ==> Resume(lim, st, chunk).state.InStep(lim)
  {
    ScanIsInStep(lim, st.header + chunk);
    if |st.header| == HEADER_SIZE && st.payloadLen - |st.payload| <= |chunk| {
      ScanIsInStep(lim, chunk[st.payloadLen - |st.payload|..]);
    }
  }

  /** One chunk of a stream: a refusal is the stream's, and otherwise the rest decides. */
  lemma OneChunk(lim: Limits, st: Partial, chunk: bytes, later: bytes)
    requires st.InStep(lim)
    ensures var o, whole := Resume(lim, st, chunk), Scan(lim, st.Buffered() + (chunk + later));
            if o.verdict != Clean then whole == o
            else o.state.InStep(lim) && whole == Scan(lim, o.state.Buffered() + later).After(o.messages)
  {
    var seen := st.Buffered() + chunk;
    Assoc(st.Buffered(), chunk, later);
    ResumeIsScan(lim, st, chunk);
    ScanSplits(lim, seen, later);
    ScanIsInStep(lim, seen);
  }

  /** Chunk boundaries do not matter: messages, leftover and verdict are those of the whole stream. */
  lemma {:induction false} ChunkingIsInvisible(lim: Limits, st: Partial, chunks: seq<bytes>)
    requires st.InStep(lim)
    ensures FeedUntilRefused(lim, st, chunks) == Scan(lim, st.Buffered() + Concat(chunks))
    decreases |chunks|
  {
    if chunks == [] {
      ResumeIsScan(lim, st, []);
      assert Concat(chunks) == [];
    } else {
      OneChunk(lim, st, chunks[0], Concat(chunks[1..]));
      var o := Resume(lim, st, chunks[0]);
      if o.verdict == Clean {
        ChunkingIsInvisible(lim, o.state, chunks[1..]);
      }
    }
  }

  /** The index of the chunk that makes the parser refuse a message, or the number of chunks. */
  function FirstRefusal(lim: Limits, st: Partial, chunks: seq<bytes>): (k: nat)
    requires st.WellFormed()
    ensures k <= |chunks|
    decreases |chunks|
  {
    if chunks == [] then 0
    else
      ResumeIsWellFormed(lim, st, chunks[0]);
      var o := Resume(lim, st, chunks[0]);
      if o.verdict != Clean then 0 else 1 + FirstRefusal(lim, o.state, chunks[1..])
  }

  /** With a header held, the next message comes out exactly when its missing octets have arrived. */
  lemma {:induction false} SilentUntilComplete(lim: Limits, st: Partial, chunks: seq<bytes>)
    requires st.WellFormed() && |st.header| == HEADER_SIZE
    ensures FeedOn(lim, st, chunks) == [] <==> |Concat(chunks)| < st.Missing()
    decreases |chunks|
  {
    if chunks != [] {
      var o := Resume(lim, st, chunks[0]);
      ResumeIsWellFormed(lim, st, chunks[0]);
      if |chunks[0]| < st.Missing() {
        assert o.messages == [] && o.state.Missing() == st.Missing() - |chunks[0]|;
        SilentUntilComplete(lim, o.state, chunks[1..]);
      } else {
        assert o.messages != [];
      }
    }
  }

  lemma {:induction false} RefusalIsFirst(lim: Limits, st: Partial, chunks: seq<bytes>)
    requires st.InStep(lim)
    ensures var o := FeedUntilRefused(lim, st, chunks);
            o.state.WellFormed() && (FirstRefusal(lim, st, chunks) == |chunks| <==> o.verdict == Clean)
    decreases |chunks|
  {
    if chunks != [] {
      ResumeIsWellFormed(lim, st, chunks[0]);
      var o := Resume(lim, st, chunks[0]);
      if o.verdict == Clean {
        RefusalIsFirst(lim, o.state, chunks[1..]);
      }
    }
  }

  /** Feeding on is stopping at the refusal, and then feeding what follows it. */
  lemma {:induction false} FeedOnFromRefusal(lim: Limits, st: Partial, chunks: seq<bytes>)
    requires st.InStep(lim)
    ensures FeedUntilRefused(lim, st, chunks).state.WellFormed()
    ensures var k := FirstRefusal(lim, st, chunks);
            var o := FeedUntilRefused(lim, st, chunks);
            FeedOn(lim, st, chunks) ==
              o.messages + (if k == |chunks| then [] else FeedOn(lim, o.state, chunks[k + 1..]))
    decreases |chunks|
  {
    RefusalIsFirst(lim, st, chunks);
    if chunks != [] {
      var o, later := Resume(lim, st, chunks[0]), chunks[1..];
      ResumeIsWellFormed(lim, st, chunks[0]);
      if o.verdict == Clean {
        FeedOnFromRefusal(lim, o.state, later);
        var k, f := FirstRefusal(lim, o.state, later), FeedUntilRefused(lim, o.state, later);
        if k < |later| {
          DropDrop(chunks, k + 1);
          Assoc(o.messages, f.messages, FeedOn(lim, f.state, chunks[k + 2..]));
        } else {
          Assoc(o.messages, f.messages, []);
        }
      }
    }
  }

  /**
   A receiver that feeds on hands over exactly the messages of the stream if and
   only if nothing is refused, or fewer octets follow the refusing chunk than the
   refused message still lacks (one, after a reserved flag).
  */
  lemma FeedingOnIsHarmless(lim: Limits, chunks: seq<bytes>)
    ensures var k := FirstRefusal(lim, IDLE, chunks);
            var o := FeedUntilRefused(lim, IDLE, chunks);
            FeedOn(lim, IDLE, chunks) == Parse(lim, Concat(chunks)).messages
            <==> (k == |chunks|
                  || (o.state.WellFormed() && |Concat(chunks[k + 1..])| < o.state.Missing()))
  {
    var k := FirstRefusal(lim, IDLE, chunks);
    var o := FeedUntilRefused(lim, IDLE, chunks);
    FeedOnFromRefusal(lim, IDLE, chunks);
    RefusalIsFirst(lim, IDLE, chunks);
    ChunkingIsInvisible(lim, IDLE, chunks);
    assert IDLE.Buffered() + Concat(chunks) == Concat(chunks);
    ScanIsInStep(lim, Concat(chunks));
    assert o.messages == Parse(lim, Concat(chunks)).messages;
    if k < |chunks| {
      var extra := FeedOn(lim, o.state, chunks[k + 1..]);
      SilentUntilComplete(lim, o.state, chunks[k + 1..]);
      assert FeedOn(lim, IDLE, chunks) == o.messages + extra;
      assert o.messages + extra == o.messages <==> extra == [];
    }
  }

  lemma FeedOnTwo(lim: Limits, st: Partial, a: bytes, b: bytes)
    requires st.WellFormed()
    ensures var o := Resume(lim, st, a);
            o.state.WellFormed()
            && FeedOn(lim, st, [a, b]) == o.messages + Resume(lim, o.state, b).messages
  {
    ResumeIsWellFormed(lim, st, a);
    var mid := Resume(lim, st, a).state;
    ResumeIsWellFormed(lim, mid, b);
    assert [a, b][1..] == [b];
    assert FeedOn(lim, mid, [b]) == Resume(lim, mid, b).messages + FeedOn(lim, Resume(lim, mid, b).state, []);
  }

  /**
   The harm, for every header with a reserved flag: the stream holds no message,
   but the octets that follow bring out an empty one and are then read as a new stream.
  */
  lemma FeedingOnInventsAMessage(lim: Limits, bad: bytes, extra: bytes)
    requires |bad| == HEADER_SIZE && Judge(lim, bad) == BadFlag && extra != []
    ensures Parse(lim, bad + extra).messages == []
    ensures FeedOn(lim, IDLE, [bad, extra]) == [[]] + Parse(lim, extra).messages
  {
    assert Judge(lim, bad + extra) == BadFlag;
    assert [] + bad == bad && bad[..HEADER_SIZE] == bad;
    var refused := Partial(bad, 0, []);
    assert Resume(lim, IDLE, bad) == Outcome([], refused, BadFlag);
    assert extra[0..] == extra && refused.payload + extra[..0] == [];
    assert Resume(lim, refused, extra).messages == [[]] + Parse(lim, extra).messages;
    FeedOnTwo(lim, IDLE, bad, extra);
  }
}

/** The server's parser of a request stream (src/server/client_streaming_call_state.h). */
module StreamingParser {
  import opened Bytes
  import opened Statuses
  import opened Lpm
  import opened Incremental

  function StatusOf(v: Verdict): Status {
    match v
    case Clean => OK_STATUS
    case BadFlag => Failed(INVALID_ARGUMENT, "invalid LPM compression flag")
    case TooLarge => Failed(RESOURCE_EXHAUSTED, "message length exceeds limit")
  }

  class StreamingFrameParser {
    const maxMessageSize: nat
    const headerBuf: array<byte>
    var headerBytes: nat
    var payloadLen: nat
    var payload: bytes

    ghost predicate Valid()
      reads this, headerBuf
    {
      headerBuf.Length == HEADER_SIZE && headerBytes <= HEADER_SIZE && State().WellFormed()
    }

    ghost function State(): Partial
      reads this, headerBuf
      requires headerBytes <= headerBuf.Length
    {
      Partial(headerBuf[..headerBytes], payloadLen, payload)
    }

    function Lim(): Limits {
      Limits(maxMessageSize, true)
    }

    constructor (maxMessageSize: nat)
      ensures Valid() && State() == IDLE && this.maxMessageSize == maxMessageSize
      ensures fresh(headerBuf)
    {
      this.maxMessageSize := maxMessageSize;
      headerBuf := new byte[HEADER_SIZE](_ => 0);
      headerBytes, payloadLen, payload := 0, 0, [];
    }

    /** Copies the octets of `chunk` that the header still lacks. */
    method FillHeader(chunk: bytes) returns (take: nat)
      requires Valid() && headerBytes < HEADER_SIZE
      modifies this`headerBytes, headerBuf
      ensures Valid() && take == Min(HEADER_SIZE - |old(State().header)|, |chunk|)
      ensures State() == old(State()).(header := old(State().header) + chunk[..take])
    {
      take := Min(HEADER_SIZE - headerBytes, |chunk|);
      forall i | 0 <= i < take {
        headerBuf[headerBytes + i] := chunk[i];
      }
      headerBytes := headerBytes + take;
    }

    /** The loop pass that collects header octets and, once it has five, judges them. */
    method TakeHeader(chunk: bytes) returns (verdict: Verdict, out: seq<bytes>, later: bytes)
      requires Valid() && headerBytes < HEADER_SIZE && chunk != []
      modifies this, headerBuf
      ensures Valid() && |later| < |chunk|
      ensures (verdict, out, State(), later) == HeaderPass(Lim(), old(State()), chunk)
    {
      var take := FillHeader(chunk);
      verdict, out, later := Clean, [], chunk[take..];
      if headerBytes == HEADER_SIZE {
        assert headerBuf[1..5] == State().header[1..5];
        var compress := headerBuf[0];
        if compress != 0 && compress != 1 {
          return BadFlag, [], later;
        }
        payloadLen := FromBe32(headerBuf[1..5]);
        if payloadLen > maxMessageSize {
          return TooLarge, [], later;
        }
        payload := [];
        if payloadLen == 0 {
          out := [payload];
          headerBytes := 0;
          assert State() == IDLE;
        }
      }
    }

    /** The loop pass that collects payload octets and hands over a complete message. */
    method TakePayload(chunk: bytes) returns (out: seq<bytes>, later: bytes)
      requires Valid() && headerBytes == HEADER_SIZE && chunk != []
      modifies this
      ensures Valid() && |later| <= |chunk| && (|later| == |chunk| ==> headerBytes == 0)
      ensures Advances(Lim(), old(State()), chunk, Clean, out, State(), later)
    {
      AbsorbPayload(Lim(), State(), chunk);
      var need := payloadLen - |payload|;
      var take := Min(need, |chunk|);
      payload := payload + chunk[..take];
      out, later := [], chunk[take..];
      if |payload| == payloadLen {
        out := [payload];
        headerBytes, payloadLen, payload := 0, 0, [];
        assert State() == IDLE;
      }
    }

    /** Feeds one chunk; `delivered` are the callback's arguments, in order. */
    method Feed(data: bytes) returns (status: Status, delivered: seq<bytes>)
      requires Valid()
      modifies this, headerBuf
      ensures Valid()
      ensures var o := Resume(Lim(), old(State()), data);
              delivered == o.messages && State() == o.state && status == StatusOf(o.verdict)
    {
      ghost var all := Resume(Lim(), State(), data);
      var chunk := data;
      delivered := [];
      while chunk != []
        invariant Valid()
        invariant all == Resume(Lim(), State(), chunk).After(delivered)
        decreases |chunk|, headerBytes
      {
        var verdict, out := Clean, [];
        if headerBytes < HEADER_SIZE {
          AbsorbHeader(Lim(), State(), chunk);
          verdict, out, chunk := TakeHeader(chunk);
        } else {
          out, chunk := TakePayload(chunk);
        }
        AfterAfter(if verdict == Clean then Resume(Lim(), State(), chunk) else all, delivered, out);
        delivered := delivered + out;
        if verdict != Clean {
          return StatusOf(verdict), delivered;
        }
      }
      return StatusOf(Clean), delivered;
    }
  }
}
