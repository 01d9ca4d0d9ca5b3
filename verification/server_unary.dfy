/**
 The server's side of a unary call (src/server/call_state.cc): the request decoder in
 front of the response gate, and what the handler is started with.
*/
module ServerUnary {
  import opened Bytes
  import opened Lpm
  import opened Decoder
  import opened SendQueue
  import opened ParserAgreement
  import G = ServerGate

  /** `inflated`: what decompressing the request yields, if it succeeds; of use at the end of the request only. */
  datatype Event =
    | Start(ok: bool)
    | Data(chunk: bytes, inflated: Option<bytes>)  // an empty chunk ends the request
    | Deadline
    | Cancel
    | Return(answer: G.Answer)
    | Close
    | Drained

  /**
   `gzip`: the request's encoding; `fed`: the octets the decoder has seen; `ended`: the
   request has; `started`: what the handler was started with.
  */
  datatype Call = Call(max: nat, gzip: bool, decoder: View, gate: G.Gate, fed: bytes, ended: bool, started: seq<bytes>) {
    function SendError(): Call {
      this.(gate := gate.SendError())
    }

    function OnData(chunk: bytes, inflated: Option<bytes>): Call {
      if chunk == [] then
        var c := this.(ended := true);
        if gate.responded then c else c.(decoder := EosView(decoder)).OnRequestEnd(inflated)
      else if gate.responded then this
      else
        var c := this.(decoder := FeedView(max, decoder, chunk), fed := fed + chunk);
        if c.decoder.state == Error then c.SendError() else c
    }

    /** Called with the gate open. */
    function OnRequestEnd(inflated: Option<bytes>): Call {
      if decoder.state != Done then SendError()
      else if gzip && decoder.flag != 0 then
        if inflated.None? then SendError() else this.(started := started + [inflated.value])
      else this.(started := started + [decoder.payload])
    }
  }

  function NewCall(max: nat, gzip: bool): Call {
    Call(max, gzip, Decode(max, []), G.OPEN, [], false, [])
  }

  /** What the decoder makes of a chunk, or of the end of the request. */
  predicate Accepted(c: Call, chunk: bytes, inflated: Option<bytes>) {
    if chunk != [] then FeedView(c.max, c.decoder, chunk).state != Error
    else EosView(c.decoder).state == Done && (c.gzip && c.decoder.flag != 0 ==> inflated.Some?)
  }

  /** What the event is to the gate. */
  function AtGate(c: Call, e: Event): G.Event {
    match e
    case Start(ok) => G.Start(ok)
    case Data(chunk, inflated) =>
      var ok := c.ended || Accepted(c, chunk, inflated);
      if chunk == [] then G.RequestEnd(ok) else G.Data(ok)
    case Deadline => G.Deadline
    case Cancel => G.Event.Cancel
    case Return(answer) => G.Return(answer)
    case Close => G.Close
    case Drained => G.Drained
  }

  /** The transport ends a request once, and carries none of its data afterwards. */
  function Step(c: Call, e: Event): Call {
    match e
    case Data(chunk, inflated) => if c.ended then c else c.OnData(chunk, inflated)
    case _ => c.(gate := G.UnaryStep(c.gate, AtGate(c, e)))
  }

  function RunOf(max: nat, gzip: bool, events: seq<Event>): Call {
    if events == [] then NewCall(max, gzip)
    else Step(RunOf(max, gzip, events[..|events| - 1]), events[|events| - 1])
  }

  function GateEvents(max: nat, gzip: bool, events: seq<Event>): seq<G.Event> {
    if events == [] then []
    else GateEvents(max, gzip, events[..|events| - 1])
         + [AtGate(RunOf(max, gzip, events[..|events| - 1]), events[|events| - 1])]
  }

  /** The gate of a call runs as the gate alone would: so it answers at most once. */
  lemma {:induction false} GateRuns(max: nat, gzip: bool, events: seq<Event>)
    ensures RunOf(max, gzip, events).gate == G.RunOf(G.Unary, GateEvents(max, gzip, events))
    ensures G.Heads(RunOf(max, gzip, events).gate.ops) <= 1 && G.Statuses(RunOf(max, gzip, events).gate.ops) <= 1
  {
    if events != [] {
      var front := events[..|events| - 1];
      GateRuns(max, gzip, front);
      GateStep(RunOf(max, gzip, front), events[|events| - 1]);
      var before := GateEvents(max, gzip, front);
      assert GateEvents(max, gzip, events)[..|before|] == before;
    }
    G.AnswersOnce(G.Unary, GateEvents(max, gzip, events));
  }

  lemma GateStep(c: Call, e: Event)
    ensures Step(c, e).gate == G.UnaryStep(c.gate, AtGate(c, e))
  {}

  /** The decoder holds what was fed, and the handler was started, once and at the end, with what the decoder held. */
  predicate Inv(c: Call) {
    && (!c.ended && !c.gate.responded ==> c.decoder == Decode(c.max, c.fed) && c.decoder.state != Error)
    && (!c.ended ==> c.started == [])
    && |c.started| <= 1
    && (c.started != [] ==>
          c.decoder == Decode(c.max, c.fed) && c.decoder.state == Done
          && (!(c.gzip && c.decoder.flag != 0) ==> c.started == [c.decoder.payload]))
  }

  lemma StepKeepsInv(c: Call, e: Event)
    requires Inv(c)
    ensures Inv(Step(c, e)) && Step(c, e).max == c.max && Step(c, e).gzip == c.gzip
  {
    if e.Data? && !c.ended {
      if e.chunk == [] {
        EndKeepsInv(c, e.inflated);
      } else {
        ChunkKeepsInv(c, e.chunk, e.inflated);
      }
    }
  }

  lemma ChunkKeepsInv(c: Call, chunk: bytes, inflated: Option<bytes>)
    requires Inv(c) && !c.ended && chunk != []
    ensures Inv(c.OnData(chunk, inflated))
  {
    DecodeSplits(c.max, c.fed, chunk);
  }

  lemma EndKeepsInv(c: Call, inflated: Option<bytes>)
    requires Inv(c) && !c.ended
    ensures Inv(c.OnData([], inflated))
  {}

  lemma {:induction false} RunKeepsInv(max: nat, gzip: bool, events: seq<Event>)
    ensures var c := RunOf(max, gzip, events); Inv(c) && c.max == max && c.gzip == gzip
  {
    if events != [] {
      RunKeepsInv(max, gzip, events[..|events| - 1]);
      StepKeepsInv(RunOf(max, gzip, events[..|events| - 1]), events[|events| - 1]);
    }
  }

  /**
   Over all runs: the handler is started at most once, and only if the request's DATA
   was exactly one acceptable frame; with its payload, unless that was compressed.
  */
  lemma HandlerGetsTheRequest(max: nat, gzip: bool, events: seq<Event>)
    ensures var c := RunOf(max, gzip, events);
            && |c.started| <= 1
            && (c.started != [] ==>
                  var f := Frame(c.decoder.flag, c.decoder.payload);
                  && Acceptable(Limits(max, true), f) && c.fed == Encoding(f)
                  && (!(gzip && f.flag != 0) ==> c.started == [f.payload]))
  {
    RunKeepsInv(max, gzip, events);
    DoneIsOneFrame(max, RunOf(max, gzip, events).fed);
  }

  /**
   And it is: at the end of a request that was not answered yet, the handler starts if
   and only if the DATA was one acceptable frame that inflates, if it was compressed;
   otherwise the call is answered with an error.
  */
  lemma EndStartsHandler(max: nat, gzip: bool, events: seq<Event>, inflated: Option<bytes>)
    requires var c := RunOf(max, gzip, events); !c.ended && !c.gate.responded
    ensures var c := RunOf(max, gzip, events);
            var c' := Step(c, Data([], inflated));
            && (c'.started != [] <==>
                  exists f: Frame ::
                    Acceptable(Limits(max, true), f) && c.fed == Encoding(f) && (gzip && f.flag != 0 ==> inflated.Some?))
            && (c'.started == [] <==> c'.gate == c.gate.SendError())
            && c.started == []
  {
    RunKeepsInv(max, gzip, events);
    var c := RunOf(max, gzip, events);
    var v := c.decoder;
    DoneIsOneFrame(max, c.fed);
    forall f: Frame | Acceptable(Limits(max, true), f) && c.fed == Encoding(f)
      ensures v.state == Done && v.flag == f.flag
    {
      FrameIsDone(max, f);
    }
    if v.state == Done {
      assert Acceptable(Limits(max, true), Frame(v.flag, v.payload)) && c.fed == Encoding(Frame(v.flag, v.payload));
    }
  }

  lemma NextOf(max: nat, gzip: bool, events: seq<Event>, e: Event)
    ensures RunOf(max, gzip, events + [e]) == Step(RunOf(max, gzip, events), e)
  {
    assert (events + [e])[..|events|] == events;
  }

  /** The request is still coming in, and not answered. */
  predicate Listening(c: Call) {
    !c.ended && !c.gate.responded
  }

  /**
   DATA that may be one message is taken in; any other is answered at once, by a head
   with a final status, and never reaches the handler.
  */
  lemma DataOutcome(max: nat, gzip: bool, events: seq<Event>, chunk: bytes, inflated: Option<bytes>)
    requires Listening(RunOf(max, gzip, events)) && chunk != []
    ensures var c, c' := RunOf(max, gzip, events), RunOf(max, gzip, events + [Data(chunk, inflated)]);
            && c'.fed == c.fed + chunk && c'.started == [] && !c'.ended
            && if OneMessageAtMost(Parse(Limits(max, true), c.fed + chunk)) then c'.gate == c.gate
               else c'.gate.responded && c'.gate.ops == c.gate.ops + [G.StatusHead]
  {
    NextOf(max, gzip, events, Data(chunk, inflated));
    RunKeepsInv(max, gzip, events);
    var c := RunOf(max, gzip, events);
    DecodeSplits(max, c.fed, chunk);
    ErrorByParse(max, c.fed + chunk);
  }

  function Request(chunks: seq<bytes>): seq<Event> {
    seq(|chunks|, i requires 0 <= i < |chunks| => Data(chunks[i], None))
  }

  lemma {:induction false} RequestIsTaken(max: nat, gzip: bool, chunks: seq<bytes>, later: bytes)
    requires OneFrame(max, Concat(chunks) + later) && (forall chunk <- chunks :: chunk != [])
    ensures var c := RunOf(max, gzip, Request(chunks)); Listening(c) && c.fed == Concat(chunks)
  {
    if chunks != [] {
      var front, last := chunks[..|chunks| - 1], chunks[|chunks| - 1];
      assert chunks == front + [last];
      assert last in chunks && forall chunk <- front :: chunk in chunks;
      ConcatAppend(front, last);
      assert Concat(front) + (last + later) == Concat(front) + last + later == Concat(chunks) + later;
      RequestIsTaken(max, gzip, front, last + later);
      DataOutcome(max, gzip, Request(front), last, None);
      PrefixIsFine(max, Concat(chunks), later);
      assert Request(chunks) == Request(front) + [Data(last, None)];
    }
  }

  /** One acceptable frame, however it is cut, and the end of the request: the handler starts with its payload. */
  lemma RequestSucceeds(max: nat, gzip: bool, chunks: seq<bytes>, f: Frame, inflated: Option<bytes>)
    requires Acceptable(Limits(max, true), f) && Concat(chunks) == Encoding(f) && (forall chunk <- chunks :: chunk != [])
    requires gzip && f.flag != 0 ==> inflated.Some?
    ensures var c := RunOf(max, gzip, Request(chunks) + [Data([], inflated)]);
            c.started == [if gzip && f.flag != 0 then inflated.value else f.payload] && !c.gate.responded
  {
    assert Concat(chunks) + [] == Encoding(f);
    assert OneFrame(max, Encoding(f));
    RequestIsTaken(max, gzip, chunks, []);
    NextOf(max, gzip, Request(chunks), Data([], inflated));
    RunKeepsInv(max, gzip, Request(chunks));
    FrameIsDone(max, f);
  }

  class ServerCallState {
    const decoder: FrameDecoder
    const gate: G.SingleResponseCall
    const gzip: bool
    var started: seq<bytes>
    ghost var fed: bytes
    ghost var ended: bool

    ghost predicate Valid()
      reads this, decoder, decoder.headerBuf
    {
      decoder.Valid()
    }

    ghost function State(): Call
      reads this, decoder, decoder.headerBuf, gate
      requires Valid()
    {
      Call(decoder.maxMessageSize, gzip, decoder.Fields(), gate.State(), fed, ended, started)
    }

    constructor (max: nat, gzip: bool)
      ensures Valid() && State() == NewCall(max, gzip)
      ensures fresh(decoder) && fresh(decoder.headerBuf) && fresh(gate)
    {
      decoder := new FrameDecoder(max);
      gate := new G.SingleResponseCall();
      this.gzip := gzip;
      started, fed, ended := [], [], false;
    }

    method OnData(chunk: bytes, inflated: Option<bytes>)
      requires Valid() && !ended
      modifies this, decoder, decoder.headerBuf, gate
      ensures Valid() && State() == old(State()).OnData(chunk, inflated)
    {
      ended := chunk == [];
      if gate.responded { return; }
      if chunk == [] {
        decoder.MarkEos();
        OnRequestEnd(inflated);
        return;
      }
      fed := fed + chunk;
      decoder.Feed(chunk);
      if decoder.state == Error {
        gate.SendError();
      }
    }

    method OnRequestEnd(inflated: Option<bytes>)
      requires Valid() && !gate.responded
      modifies this`started, gate
      ensures Valid() && State() == old(State()).OnRequestEnd(inflated)
    {
      if decoder.state == Error {
        gate.SendError();
        return;
      }
      if decoder.state != Done {
        gate.SendError();
        return;
      }
      var request := decoder.payload;
      if gzip && decoder.compressFlag != 0 {
        if inflated.None? {
          gate.SendError();
          return;
        }
        request := inflated.value;
      }
      started := started + [request];
    }
  }
}
