/** The client's state of one unary call (src/client/call_state.cc). */
module UnaryCall {
  import opened Bytes
  import opened Statuses
  import opened StatusMap
  import opened Lpm
  import opened Decoder
  import opened Metadata

  /** What the completion callback gets. */
  datatype Result = Result(status: Status, hasResponse: bool, response: bytes)

  function Failing(status: Status): Result {
    Result(status, false, [])
  }

  const BAD_ENCODING := Failed(UNIMPLEMENTED, "unsupported grpc-encoding")
  const BAD_COMPRESSION := Failed(INTERNAL, "response decompression failed")
  const DEADLINE := Failed(DEADLINE_EXCEEDED, "deadline exceeded")
  const CANCELLED_CALL := Failed(CANCELLED, "call cancelled")

  /** The status of a decoder's error: too long, or malformed. */
  function FrameError(v: View): Status {
    Failed(if v.limitExceeded then RESOURCE_EXHAUSTED else INTERNAL, "frame error")
  }

  datatype ContentEncoding = Identity | Gzip | Unknown

  /** The response head; `http` is its HTTP status. */
  datatype Head = Head(isGrpc: bool, http: nat, encoding: ContentEncoding, headers: seq<Entry>)

  /** `inflated`: what decompressing the payload yields, if it succeeds. */
  datatype Event =
    | Attach(head: Head)
    | Data(chunk: bytes)
    | OnTrailers(trailers: seq<Entry>, inflated: Option<bytes>)
    | Close(error: nat)
    | Deadline
    | Cancel
    | Fail(failure: Failure)

  /**
   `attached`: the response head has arrived; `listening`: the data and trailers callbacks are registered; `posted`: the results
   handed to the completion callback; `fed`: the octets the decoder has seen.
  */
  datatype Call = Call(max: nat, decoder: View, attached: bool, gzip: bool, listening: bool, trailersDone: bool, completed: bool,
                       posted: seq<Result>, fed: bytes)
  {
    function Complete(r: Result): Call {
      if completed then this else this.(completed := true, posted := posted + [r])
    }

    function Attach(head: Head): Call {
      var c := this.(attached := true);
      if !head.isGrpc || head.http != 200 then c.Complete(Failing(FromHttp(head.http)))
      else if head.encoding == Unknown then c.Complete(Failing(BAD_ENCODING))
      else
        var c := c.(gzip := head.encoding == Gzip);
        if Find(head.headers, "grpc-status").Some? then c.Complete(Failing(TrailerStatus(head.headers)))
        else c.(listening := true)
    }

    function OnData(chunk: bytes): Call {
      if completed then this
      else
        var v := if chunk == [] then EosView(decoder) else FeedView(max, decoder, chunk);
        var c := this.(decoder := v, fed := fed + chunk);
        if v.state == Error then c.Complete(Failing(FrameError(v))) else c
    }

    function OnTrailers(trailers: seq<Entry>, inflated: Option<bytes>): Call {
      if completed then this
      else
        var c, status := this.(trailersDone := true), TrailerStatus(trailers);
        if !status.Ok() then c.Complete(Failing(status))
        else if gzip && decoder.flag != 0 then
          if inflated.None? then c.Complete(Failing(BAD_COMPRESSION))
          else c.Complete(Result(status, decoder.state == Done, inflated.value))
        else c.Complete(Result(status, decoder.state == Done, decoder.payload))
    }

    function OnStreamClose(error: nat): Call {
      if completed || trailersDone then this
      else Complete(Failing(ClosedEarly(error)))
    }
  }

  function NewCall(max: nat): Call {
    Call(max, Decode(max, []), false, false, false, false, false, [], [])
  }

  function Step(c: Call, e: Event): Call {
    match e
    case Attach(head) => c.Attach(head)
    case Data(chunk) => if c.listening then c.OnData(chunk) else c
    case OnTrailers(trailers, inflated) => if c.listening then c.OnTrailers(trailers, inflated) else c
    case Close(error) => c.OnStreamClose(error)
    case Deadline => c.Complete(Failing(DEADLINE))
    case Cancel => c.Complete(Failing(CANCELLED_CALL))
    case Fail(failure) => c.Complete(Failing(failure))
  }

  function RunOf(max: nat, events: seq<Event>): Call {
    if events == [] then NewCall(max) else Step(RunOf(max, events[..|events| - 1]), events[|events| - 1])
  }

  /** An OK result that was not decompressed: what the octets before the trailers held. */
  predicate Truthful(c: Call, r: Result) {
    r.status.Ok() && !(c.gzip && c.decoder.flag != 0) ==>
      && c.decoder == Decode(c.max, c.fed)
      && r.hasResponse == (c.decoder.state == Done)
      && (c.listening ==> r.response == c.decoder.payload)
  }

  predicate Inv(c: Call) {
    && |c.posted| == (if c.completed then 1 else 0)
    && (c.trailersDone ==> c.completed) && (c.listening || c.gzip ==> c.attached)
    && (!c.completed ==> c.decoder == Decode(c.max, c.fed) && c.decoder.state != Error)
    && (!c.listening ==> c.fed == [] && c.decoder == Decode(c.max, []))
    && (c.completed ==> Truthful(c, c.posted[0]) && (c.posted[0].status.Ok() ==> c.attached))
  }

  /** The transport hands over one response head per stream. */
  predicate SecondHead(c: Call, e: Event) {
    e.Attach? && c.attached
  }

  lemma DataKeepsInv(c: Call, chunk: bytes)
    requires Inv(c) && c.listening
    ensures Inv(c.OnData(chunk))
  {
    DecodeSplits(c.max, c.fed, chunk);
    assert c.fed + [] == c.fed;
  }

  lemma TrailersKeepInv(c: Call, trailers: seq<Entry>, inflated: Option<bytes>)
    requires Inv(c) && c.listening
    ensures Inv(c.OnTrailers(trailers, inflated))
  {}

  lemma AttachKeepsInv(c: Call, head: Head)
    requires Inv(c) && !c.attached
    ensures Inv(c.Attach(head))
  {}

  lemma StepKeepsInv(c: Call, e: Event)
    requires Inv(c) && !SecondHead(c, e)
    ensures Inv(Step(c, e)) && Step(c, e).max == c.max
    ensures c.completed ==> Step(c, e).posted == c.posted && Step(c, e).completed
    ensures e.Close? ==> Step(c, e).completed
  {
    match e
    case Attach(head) => AttachKeepsInv(c, head);
    case Data(chunk) => if c.listening { DataKeepsInv(c, chunk); }
    case OnTrailers(trailers, inflated) => if c.listening { TrailersKeepInv(c, trailers, inflated); }
    case _ =>
  }

  predicate OneHead(max: nat, events: seq<Event>) {
    events == []
    || (OneHead(max, events[..|events| - 1]) && !SecondHead(RunOf(max, events[..|events| - 1]), events[|events| - 1]))
  }

  lemma {:induction false} RunKeepsInv(max: nat, events: seq<Event>)
    requires OneHead(max, events)
    ensures Inv(RunOf(max, events)) && RunOf(max, events).max == max
  {
    if events != [] {
      RunKeepsInv(max, events[..|events| - 1]);
      StepKeepsInv(RunOf(max, events[..|events| - 1]), events[|events| - 1]);
    }
  }

  predicate HasClosed(events: seq<Event>) {
    events != [] && (events[|events| - 1].Close? || HasClosed(events[..|events| - 1]))
  }

  /** Whatever the order of events: the callback is posted at most once, and once the stream closes it has been. */
  lemma {:induction false} CompletedOnce(max: nat, events: seq<Event>)
    requires OneHead(max, events)
    ensures |RunOf(max, events).posted| <= 1
    ensures HasClosed(events) ==> |RunOf(max, events).posted| == 1
  {
    RunKeepsInv(max, events);
    if HasClosed(events) {
      var front := events[..|events| - 1];
      RunKeepsInv(max, front);
      StepKeepsInv(RunOf(max, front), events[|events| - 1]);
      if !events[|events| - 1].Close? {
        CompletedOnce(max, front);
      }
    }
  }

  /** What was posted stands. */
  lemma {:induction false} ResultIsFinal(max: nat, events: seq<Event>, k: nat)
    requires OneHead(max, events) && k <= |events| && RunOf(max, events[..k]).completed
    ensures RunOf(max, events).completed && RunOf(max, events).posted == RunOf(max, events[..k]).posted
    decreases |events|
  {
    if k < |events| {
      var front := events[..|events| - 1];
      assert front[..k] == events[..k];
      ResultIsFinal(max, front, k);
      RunKeepsInv(max, front);
      StepKeepsInv(RunOf(max, front), events[|events| - 1]);
    } else {
      assert events[..k] == events;
    }
  }

  /**
   An OK result that was not decompressed has a response exactly when the DATA before
   the trailers was one acceptable frame, and then the response is its payload.
  */
  lemma OkMeansOneFrame(max: nat, events: seq<Event>)
    requires OneHead(max, events) && RunOf(max, events).posted != []
    requires var c := RunOf(max, events); c.posted[0].status.Ok() && !(c.gzip && c.decoder.flag != 0)
    ensures var c := RunOf(max, events);
            var r := c.posted[0];
            && (r.hasResponse <==> exists f: Frame :: Acceptable(Limits(max, true), f) && c.fed == Encoding(f))
            && (r.hasResponse ==> |r.response| <= max && |r.response| <= MAX_PAYLOAD
                                  && c.fed == Encoding(Frame(c.decoder.flag, r.response)))
  {
    RunKeepsInv(max, events);
    var c := RunOf(max, events);
    DoneIsOneFrame(max, c.fed);
    EosVerdict(max, c.fed);
  }

  class ClientCallState {
    const decoder: FrameDecoder
    var attached: bool
    var gzip: bool
    var listening: bool
    var trailersDone: bool
    var completed: bool
    var posted: seq<Result>
    ghost var fed: bytes

    ghost predicate Valid()
      reads this, decoder, decoder.headerBuf
    {
      decoder.Valid()
    }

    ghost function State(): Call
      reads this, decoder, decoder.headerBuf
      requires Valid()
    {
      Call(decoder.maxMessageSize, decoder.Fields(), attached, gzip, listening, trailersDone, completed, posted, fed)
    }

    constructor (max: nat)
      ensures Valid() && fresh(decoder) && fresh(decoder.headerBuf) && State() == NewCall(max)
    {
      decoder := new FrameDecoder(max);
      attached, gzip, listening, trailersDone, completed, posted, fed := false, false, false, false, false, [], [];
    }

    method Complete(r: Result)
      requires Valid()
      modifies this
      ensures Valid() && State() == old(State()).Complete(r)
    {
      if completed { return; }
      completed := true;
      posted := posted + [r];
    }

    method Attach(head: Head)
      requires Valid()
      modifies this
      ensures Valid() && State() == old(State()).Attach(head)
    {
      attached := true;
      if !head.isGrpc {
        Complete(Failing(FromHttp(head.http)));
        return;
      }
      if head.http != 200 {
        Complete(Failing(FromHttp(head.http)));
        return;
      }
      if head.encoding == Unknown {
        Complete(Failing(BAD_ENCODING));
        return;
      }
      gzip := head.encoding == Gzip;
      if Find(head.headers, "grpc-status").Some? {
        var status := ExtractTrailerStatus(head.headers);
        Complete(Failing(status));
        return;
      }
      listening := true;
    }

    method OnData(chunk: bytes)
      requires Valid()
      modifies this, decoder, decoder.headerBuf
      ensures Valid() && State() == old(State()).OnData(chunk)
    {
      if completed { return; }
      fed := fed + chunk;
      if chunk == [] {
        decoder.MarkEos();
      } else {
        decoder.Feed(chunk);
      }
      if decoder.state == Error {
        var status := FrameErrorOf();
        Complete(Failing(status));
      }
    }

    method FrameErrorOf() returns (status: Status)
      requires Valid()
      ensures status == FrameError(decoder.Fields())
    {
      return Failed(if decoder.limitExceeded then RESOURCE_EXHAUSTED else INTERNAL, "frame error");
    }

    method OnTrailers(trailers: seq<Entry>, inflated: Option<bytes>)
      requires Valid()
      modifies this
      ensures Valid() && State() == old(State()).OnTrailers(trailers, inflated)
    {
      if completed { return; }
      trailersDone := true;
      var status := ExtractTrailerStatus(trailers);
      if !status.Ok() {
        Complete(Failing(status));
        return;
      }
      var response := decoder.payload;
      if gzip && decoder.compressFlag != 0 {
        if inflated.None? {
          Complete(Failing(BAD_COMPRESSION));
          return;
        }
        response := inflated.value;
      }
      Complete(Result(status, decoder.state == Done, response));
    }

    method OnStreamClose(error: nat)
      requires Valid()
      modifies this
      ensures Valid() && State() == old(State()).OnStreamClose(error)
    {
      if completed { return; }
      if !trailersDone {
        Complete(Failing(ClosedEarly(error)));
      }
    }
  }
}
