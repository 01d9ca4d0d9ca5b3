/**
 The client's side of a client-streaming call: many messages out, one response slot
 (src/client/client_streaming_call_state.cc).
*/
module SingleResponse {
  import opened Bytes
  import opened Statuses
  import opened StatusMap
  import opened Lpm
  import opened Incremental
  import opened Metadata
  import opened ClientStream
  import Decoder

  /** The slot after `messages` have gone into it: each overwrites the one before. */
  function Slot(before: Option<bytes>, messages: seq<bytes>): Option<bytes> {
    if messages == [] then before else Some(messages[|messages| - 1])
  }

  /**
   `fed`: the octets parsed; `told`: the status of the trailers; `posted`: the status a
   local failure will deliver when the executor runs it; `failed`: that failure.
  */
  datatype Caller = Caller(lim: Limits, fed: bytes, parser: Partial, verdict: Verdict, response: Option<bytes>,
                           closed: bool, told: Option<Status>, final: Option<Status>,
                           posted: Option<Status>, failed: Option<Status>)
  {
    function Fail(status: Failure): Caller {
      if closed then this else this.(closed := true, posted := Some(status), failed := Some(status))
    }

    function OnData(chunk: bytes): Caller
      requires parser.WellFormed()
    {
      if closed || chunk == [] then this
      else
        var o := Resume(lim, parser, chunk);
        var c := this.(fed := fed + chunk, parser := o.state, verdict := o.verdict, response := Slot(response, o.messages));
        if o.verdict == Clean then c else c.Fail(TOO_LARGE)
    }

    function OnTrailers(trailers: seq<Entry>): Caller {
      if closed then this else this.(told := Some(TrailerStatus(trailers)), final := Some(TrailerStatus(trailers)))
    }

    function OnStreamClose(error: nat): Caller {
      if closed then this
      else if told.Some? then this.(closed := true)
      else Fail(ClosedEarly(error))
    }

    function RunPosted(): Caller {
      if posted.None? then this else this.(posted := None, final := posted)
    }
  }

  function NewCaller(max: nat): Caller {
    Caller(Limits(max, false), [], IDLE, Clean, None, false, None, None, None, None)
  }

  datatype Event =
    | Data(chunk: bytes)
    | Trailers(trailers: seq<Entry>)
    | StreamClose(error: nat)
    | Fail(failure: Failure)
    | RunPosted

  function Step(c: Caller, e: Event): Caller
    requires c.parser.WellFormed()
  {
    match e
    case Data(chunk) => c.OnData(chunk)
    case Trailers(trailers) => c.OnTrailers(trailers)
    case StreamClose(error) => c.OnStreamClose(error)
    case Fail(failure) => c.Fail(failure)
    case RunPosted => c.RunPosted()
  }

  /** The slot, the parser and the verdict are those of all octets fed, and the final status is accounted for. */
  predicate Inv(c: Caller) {
    var p := Parse(c.lim, c.fed);
    && c.parser.WellFormed()
    && c.parser == Stopped(c.lim, p.rest) && c.verdict == p.verdict
    && c.response == Slot(None, p.messages)
    && (!c.closed ==> c.verdict == Clean)
    && (c.failed.Some? ==> c.closed && !c.failed.value.Ok())
    && (c.posted.Some? ==> c.posted == c.failed)
    && (c.closed && c.failed.None? ==> c.told.Some?)
    && c.final == if c.failed.Some? && c.posted.None? then c.failed else c.told
  }

  lemma DataKeepsInv(c: Caller, chunk: bytes)
    requires Inv(c)
    ensures Inv(c.OnData(chunk))
  {
    if !c.closed && chunk != [] {
      ScanIsInStep(c.lim, c.fed);
      ScanSplits(c.lim, c.fed, chunk);
      ResumeIsScan(c.lim, c.parser, chunk);
      ResumeIsWellFormed(c.lim, c.parser, chunk);
    }
  }

  lemma StepKeepsInv(c: Caller, e: Event)
    requires Inv(c)
    ensures Inv(Step(c, e)) && Step(c, e).lim == c.lim
  {
    if e.Data? {
      DataKeepsInv(c, e.chunk);
    }
  }

  function RunOf(max: nat, events: seq<Event>): (c: Caller)
    ensures Inv(c) && c.lim == Limits(max, false)
  {
    if events == [] then NewCaller(max)
    else
      var before := RunOf(max, events[..|events| - 1]);
      StepKeepsInv(before, events[|events| - 1]);
      Step(before, events[|events| - 1])
  }

  /** Over all runs: the slot holds the last message of the octets parsed, and the status is who spoke last. */
  lemma SlotIsLastMessage(max: nat, events: seq<Event>)
    ensures var c := RunOf(max, events);
            && c.response == Slot(None, Parse(Limits(max, false), c.fed).messages)
            && c.final == (if c.failed.Some? && c.posted.None? then c.failed else c.told)
            && (c.final.Some? && c.final.value.Ok() ==> c.told == c.final)
  {}

  /** What a unary call makes of the same DATA: a response if it is exactly one acceptable frame. */
  function UnaryResponse(max: nat, s: bytes): Option<bytes> {
    var v := Decoder.Decode(max, s);
    if v.state == Decoder.Done then Some(v.payload) else None
  }

  /**
   On any octets the slot holds what a unary call would have delivered if and only if
   they hold no message, or one with a known flag and nothing behind it. Otherwise a
   client-streaming call accepts what a unary call refuses.
  */
  lemma AgreesWithUnary(max: nat, s: bytes)
    ensures var p := Parse(Limits(max, false), s);
            Slot(None, p.messages) == UnaryResponse(max, s)
            <==> p.messages == [] || (|p.messages| == 1 && p.rest == [] && s[0] <= 1)
  {
    var lenient := Limits(max, false);
    var p := Parse(lenient, s);
    ParseConserves(lenient, s);
    Decoder.DoneIsOneFrame(max, s);
    var v := Decoder.Decode(max, s);
    if v.state == Decoder.Done {
      ParseFrame(lenient, Frame(v.flag, v.payload), []);
      assert s + [] == s;
    }
    if |p.messages| == 1 && p.rest == [] {
      OneFrame(lenient, s);
      var f := Consumed(lenient, s)[0];
      if f.flag <= 1 {
        Decoder.FrameIsDone(max, f);
      }
    }
  }

  lemma OneFrame(lim: Limits, s: bytes)
    requires |Parse(lim, s).messages| == 1 && Parse(lim, s).rest == []
    ensures |Consumed(lim, s)| == 1
    ensures var f := Consumed(lim, s)[0]; Acceptable(lim, f) && s == Encoding(f) && s[0] == f.flag
    ensures Parse(lim, s).messages == [Consumed(lim, s)[0].payload]
  {
    ParseConserves(lim, s);
    var frames := Consumed(lim, s);
    assert |Payloads(frames)| == 1;
    assert frames == [frames[0]] && frames[1..] == [];
    assert Wire(frames) == Encoding(frames[0]) + [];
  }

  /** Two messages and an OK status: the call succeeds with the second. */
  lemma SecondResponseWins(max: nat, first: Frame, second: Frame, trailers: seq<Entry>)
    requires Acceptable(Limits(max, true), first) && Acceptable(Limits(max, true), second)
    requires TrailerStatus(trailers).Ok()
    ensures var s := Encoding(first) + Encoding(second);
            var c := RunOf(max, [Data(s), Trailers(trailers)]);
            && c.final == Some(TrailerStatus(trailers)) && c.response == Some(second.payload)
            && UnaryResponse(max, s) == None
  {
    var frames, s := [first, second], Encoding(first) + Encoding(second);
    assert frames[1..] == [second] && [second][1..] == [];
    assert Wire(frames) == s by {
      assert Wire([second]) == Encoding(second) + [];
    }
    ParseOfWire(Limits(max, false), frames);
    ParseOfWire(Limits(max, true), frames);
    assert Payloads(frames) == [first.payload, second.payload];
    Decoder.AgreesWithParse(max, s);
    TwoSteps(max, Data(s), Trailers(trailers));
    DataIsParsed(max, s);
  }

  lemma DataIsParsed(max: nat, s: bytes)
    requires s != [] && Parse(Limits(max, false), s).verdict == Clean
    ensures var c := NewCaller(max).OnData(s); Inv(c) && !c.closed && c.fed == s
  {
    assert [] + s == s;
    assert Resume(Limits(max, false), IDLE, s) == Scan(Limits(max, false), s);
    DataKeepsInv(NewCaller(max), s);
  }

  lemma TwoSteps(max: nat, a: Event, b: Event)
    ensures Inv(Step(NewCaller(max), a))
    ensures RunOf(max, [a, b]) == Step(Step(NewCaller(max), a), b)
  {
    assert [a, b][..1] == [a] && [a][..0] == [];
    assert RunOf(max, []) == NewCaller(max);
    assert RunOf(max, [a]) == Step(NewCaller(max), a);
  }

  class SingleResponseCallState {
    const parser: ResponseParser
    var response: Option<bytes>  // response_bytes_, once has_response_ is set
    var closed: bool
    var trailersDone: bool
    var finalStatus: Option<Status>
    var posted: Option<Status>
    ghost var fed: bytes
    ghost var verdict: Verdict
    ghost var told: Option<Status>
    ghost var failed: Option<Status>

    ghost predicate Valid()
      reads this, parser, parser.hdrBuf
    {
      parser.Valid() && (trailersDone <==> told.Some?)
    }

    ghost function State(): Caller
      reads this, parser, parser.hdrBuf
      requires Valid()
    {
      Caller(parser.Lim(), fed, parser.State(), verdict, response, closed, told, finalStatus, posted, failed)
    }

    constructor (maxMessageSize: nat)
      ensures Valid() && fresh(parser) && fresh(parser.hdrBuf) && State() == NewCaller(maxMessageSize)
    {
      parser := new ResponseParser(maxMessageSize);
      response, closed, trailersDone, finalStatus, posted := None, false, false, None, None;
      fed, verdict, told, failed := [], Clean, None, None;
    }

    method Fail(status: Failure)
      requires Valid()
      modifies this
      ensures Valid() && State() == old(State()).Fail(status)
    {
      if closed { return; }
      closed, posted := true, Some(status);
      failed := posted;
    }

    method OnData(chunk: bytes)
      requires Valid()
      modifies this, parser, parser.hdrBuf
      ensures Valid() && State() == old(State()).OnData(chunk)
    {
      if chunk == [] || closed { return; }
      var refused, out := parser.ParseChunk(chunk);
      if out != [] {
        response := Some(out[|out| - 1]);
      }
      fed, verdict := fed + chunk, if refused then TooLarge else Clean;
      if refused {
        Fail(TOO_LARGE);
      }
    }

    method OnTrailers(trailers: seq<Entry>)
      requires Valid()
      modifies this
      ensures Valid() && State() == old(State()).OnTrailers(trailers)
    {
      if closed { return; }
      var status := ExtractTrailerStatus(trailers);
      trailersDone, finalStatus := true, Some(status);
      told := finalStatus;
    }

    method OnStreamClose(error: nat)
      requires Valid()
      modifies this
      ensures Valid() && State() == old(State()).OnStreamClose(error)
    {
      if closed { return; }
      closed := true;
      if !trailersDone {
        posted := Some(ClosedEarly(error));
        failed := posted;
      }
    }

    method RunPosted()
      requires Valid()
      modifies this
      ensures Valid() && State() == old(State()).RunPosted()
    {
      if posted.Some? {
        finalStatus, posted := posted, None;
      }
    }
  }
}
