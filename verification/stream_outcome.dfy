/**
 What a streaming call of a client ends with when it does not end with trailers, and that
 what arrives while it is open counts: over every run before the event.
*/
module StreamOutcome {
  import opened Bytes
  import opened Statuses
  import opened StatusMap
  import opened Lpm
  import opened Incremental
  import opened Metadata
  import opened Receiving
  import opened ClientStream
  import opened ResponsePipe
  import UnaryOutcome
  import S = SingleResponse
  import StreamQueue

  // ----- Calls that stream responses -----

  function CallAfter(maxResponse: nat, maxReceive: nat, events: seq<Event>): Client {
    RunOf(maxResponse, maxReceive, events).r.call
  }

  lemma NextStep(maxResponse: nat, maxReceive: nat, events: seq<Event>, e: Event)
    ensures Inv(RunOf(maxResponse, maxReceive, events))
    ensures RunOf(maxResponse, maxReceive, events + [e]) == Step(RunOf(maxResponse, maxReceive, events), e)
  {
    assert (events + [e])[..|events + [e]| - 1] == events;
  }

  lemma {:induction false} LimitStays(maxResponse: nat, maxReceive: nat, events: seq<Event>)
    ensures CallAfter(maxResponse, maxReceive, events).input.lim == Limits(maxReceive, false)
  {
    if events != [] {
      var front, e := events[..|events| - 1], events[|events| - 1];
      assert events == front + [e];
      LimitStays(maxResponse, maxReceive, front);
      NextStep(maxResponse, maxReceive, front, e);
      var p := RunOf(maxResponse, maxReceive, front);
      TakeKeepsLimit(p.r, p.s, e);
    }
  }

  lemma TakeKeepsLimit(r: Receiver, s: Server, e: Event)
    requires r.call.input.parser.WellFormed() && r.delivered <= |s.sent|
    ensures Take(r, s, e).call.input.lim == r.call.input.lim
  {}

  /** The call is over; its status, and the error its reader gets behind what is buffered, is `status`. */
  predicate ToldOf(c: Client, status: Status) {
    c.closed && c.final == Some(status) && c.input.reader.queue.error == Some(status) && !c.input.reader.queue.waiting
  }

  /** A close of an open call that has no trailers, and then the executor's turn. */
  lemma CloseIsTold(maxResponse: nat, maxReceive: nat, events: seq<Event>, error: nat)
    requires var c := CallAfter(maxResponse, maxReceive, events); !c.closed && !c.trailersDone
    ensures exists status: Status :: UnaryOutcome.ClosesWith(error, status)
              && ToldOf(CallAfter(maxResponse, maxReceive, events + [StreamClose(error), RunPosted]), status)
  {
    var p := TwoSteps(maxResponse, maxReceive, events, StreamClose(error));
    FailsNow(p.r, p.s, StreamClose(error), ClosedEarly(error));
    assert UnaryOutcome.ClosesWith(error, ClosedEarly(error));
  }

  lemma TwoSteps(maxResponse: nat, maxReceive: nat, events: seq<Event>, e: Event) returns (p: Pipe)
    ensures p == RunOf(maxResponse, maxReceive, events) && Inv(p)
    ensures CallAfter(maxResponse, maxReceive, events + [e, RunPosted]) == Take(p.r, p.s, e).call.RunPosted()
  {
    var q;
    p, q := RunTwice(maxResponse, maxReceive, events, e);
    TakeOfStep(p, e);
    TakeOfStep(q, RunPosted);
  }

  lemma RunTwice(maxResponse: nat, maxReceive: nat, events: seq<Event>, e: Event) returns (p: Pipe, q: Pipe)
    ensures p == RunOf(maxResponse, maxReceive, events) && Inv(p) && q == Step(p, e) && Inv(q)
    ensures RunOf(maxResponse, maxReceive, events + [e, RunPosted]) == Step(q, RunPosted)
  {
    p := RunOf(maxResponse, maxReceive, events);
    var mid := OneByOne(events, e, RunPosted);
    q := OneMore(maxResponse, maxReceive, events, e);
    var last := OneMore(maxResponse, maxReceive, mid, RunPosted);
  }

  lemma OneByOne<T>(events: seq<T>, a: T, b: T) returns (mid: seq<T>)
    ensures mid == events + [a] && mid + [b] == events + [a, b]
  {
    mid := events + [a];
  }

  lemma OneMore(maxResponse: nat, maxReceive: nat, events: seq<Event>, e: Event) returns (q: Pipe)
    ensures Inv(RunOf(maxResponse, maxReceive, events)) && Inv(q)
    ensures q == RunOf(maxResponse, maxReceive, events + [e]) == Step(RunOf(maxResponse, maxReceive, events), e)
  {
    NextStep(maxResponse, maxReceive, events, e);
    q := RunOf(maxResponse, maxReceive, events + [e]);
  }

  lemma TakeOfStep(p: Pipe, e: Event)
    requires Inv(p)
    ensures Step(p, e).r == Take(p.r, p.s, e)
    ensures e.RunPosted? ==> Step(p, e).r.call == p.r.call.RunPosted()
  {}

  /** A failure from the client's side of an open call: its deadline, a cancellation, a GOAWAY. */
  lemma FailureIsTold(maxResponse: nat, maxReceive: nat, events: seq<Event>, failure: Failure)
    requires !CallAfter(maxResponse, maxReceive, events).closed
    ensures ToldOf(CallAfter(maxResponse, maxReceive, events + [Fail(failure), RunPosted]), failure)
  {
    var p := TwoSteps(maxResponse, maxReceive, events, Fail(failure));
    FailsNow(p.r, p.s, Fail(failure), failure);
  }

  lemma FailsNow(r: Receiver, s: Server, e: Event, status: Failure)
    requires ServerInv(s) && ReceiverInv(r, s) && !r.call.closed
    requires match e
             case Fail(f) => f == status
             case StreamClose(error) => !r.call.trailersDone && ClosedEarly(error) == status
             case _ => false
    ensures ToldOf(Take(r, s, e).call.RunPosted(), status)
  {}

  /** The octets that have arrived after one more delivery. */
  function Arrived(r: Receiver, s: Server, n: nat): bytes
    requires r.delivered <= |s.sent|
  {
    s.sent[..r.delivered + Min(n, |s.sent| - r.delivered)]
  }

  /** What the octets hold has been pushed; if they are refused the call is over with RESOURCE_EXHAUSTED. */
  predicate Heard(lim: Limits, octets: bytes, c: Client) {
    && c.input.reader.pushed == Parse(lim, octets).messages
    && if Parse(lim, octets).verdict == Clean then !c.closed
       else c.final.Some? && c.final.value.code == 8 && ToldOf(c, c.final.value)
  }

  /** DATA on an open call. */
  lemma DataIsHeard(maxResponse: nat, maxReceive: nat, events: seq<Event>, n: nat)
    requires !CallAfter(maxResponse, maxReceive, events).closed
    ensures var p := RunOf(maxResponse, maxReceive, events);
            Heard(Limits(maxReceive, false), Arrived(p.r, p.s, n),
                  CallAfter(maxResponse, maxReceive, events + [Deliver(n), RunPosted]))
  {
    LimitStays(maxResponse, maxReceive, events);
    var p := TwoSteps(maxResponse, maxReceive, events, Deliver(n));
    DeliveryIsHeard(p.r, p.s, n);
  }

  lemma PostedIsTold(c: Client)
    ensures c.RunPosted().input.reader.pushed == c.input.reader.pushed && c.RunPosted().closed == c.closed
    ensures c.closed && c.posted.Some? ==> ToldOf(c.RunPosted(), c.posted.value)
  {}

  lemma DeliveryIsHeard(r: Receiver, s: Server, n: nat)
    requires ServerInv(s) && ReceiverInv(r, s) && !r.call.closed
    ensures Heard(r.call.input.lim, Arrived(r, s, n), Take(r, s, Deliver(n)).call.RunPosted())
  {
    var chunk := ArrivedNow(r, s, n);
    ChunkIsHeard(r.call, chunk);
    PostedIsTold(r.call.OnData(chunk));
  }

  lemma ArrivedNow(r: Receiver, s: Server, n: nat) returns (chunk: bytes)
    requires ServerInv(s) && ReceiverInv(r, s) && !r.call.closed
    ensures Arrived(r, s, n) == r.call.input.fed + chunk
    ensures Take(r, s, Deliver(n)).call == r.call.OnData(chunk)
  {
    var end := r.delivered + Min(n, |s.sent| - r.delivered);
    chunk := Between(s.sent, r.delivered, end);
  }

  lemma Between(octets: bytes, a: nat, b: nat) returns (chunk: bytes)
    requires a <= b <= |octets|
    ensures chunk == octets[a..b] && octets[..b] == octets[..a] + chunk
  {
    chunk := octets[a..b];
  }

  lemma ChunkIsHeard(c: Client, chunk: bytes)
    requires c.input.Faithful() && c.input.verdict == Clean && !c.closed && c.posted.None?
    ensures var parsed, c' := Parse(c.input.lim, c.input.fed + chunk), c.OnData(chunk);
            && c'.input.reader.pushed == parsed.messages
            && if parsed.verdict == Clean then !c'.closed && c'.posted.None? else c'.closed && c'.posted == Some(TOO_LARGE)
  {
    if chunk == [] {
      assert c.input.fed + chunk == c.input.fed;
    } else {
      ReceiveKeepsFaith(c.input, chunk);
    }
    ScanIsInStep(c.input.lim, c.input.fed + chunk);
  }

  // ----- Calls with one response -----

  function CallerAfter(max: nat, events: seq<S.Event>): S.Caller {
    S.RunOf(max, events)
  }

  lemma NextOf(max: nat, events: seq<S.Event>, e: S.Event)
    ensures CallerAfter(max, events + [e]) == S.Step(CallerAfter(max, events), e)
  {
    assert (events + [e])[..|events + [e]| - 1] == events;
  }

  lemma TwoMore(max: nat, events: seq<S.Event>, e: S.Event)
    ensures S.Inv(S.Step(CallerAfter(max, events), e))
    ensures CallerAfter(max, events + [e, S.RunPosted]) == S.Step(CallerAfter(max, events), e).RunPosted()
  {
    var mid := OneByOne(events, e, S.RunPosted);
    NextOf(max, events, e);
    NextOf(max, mid, S.RunPosted);
  }

  /** What an event, and then the executor's turn, leave of an open call. */
  predicate Outcome(c: S.Caller, e: S.Event, c': S.Caller) {
    match e
    case Data(chunk) => SlotFilled(c, chunk, c')
    case Trailers(trailers) => !c'.closed && c'.told == c'.final == Some(TrailerStatus(trailers)) && c'.response == c.response
    case StreamClose(error) =>
      && c'.closed && c'.final.Some? && c'.response == c.response
      && (if c.told.Some? then c'.final == c.told else UnaryOutcome.ClosesWith(error, c'.final.value))
    case Fail(failure) => c'.closed && c'.final == Some(failure) && c'.response == c.response
    case RunPosted => c' == c
  }

  predicate SlotFilled(c: S.Caller, chunk: bytes, c': S.Caller) {
    var p := Parse(c.lim, c.fed + chunk);
    && c'.fed == c.fed + chunk
    && (c'.response == if p.messages == [] then None else Some(p.messages[|p.messages| - 1]))
    && (if p.verdict == Clean then !c'.closed && c'.final == c.final
        else c'.closed && c'.final.Some? && c'.final.value.code == 8)
  }

  lemma SingleData(c: S.Caller, chunk: bytes)
    requires S.Inv(c) && !c.closed && S.Inv(c.OnData(chunk))
    ensures SlotFilled(c, chunk, c.OnData(chunk).RunPosted())
  {
    if chunk == [] {
      assert c.fed + chunk == c.fed;
    }
  }

  /**
   What each event leaves of an open client-streaming call, once the executor has had its
   turn: the trailers' status; after a close that same status, or without trailers one by
   error code; a local failure's; RESOURCE_EXHAUSTED when the octets hold a message beyond
   the limit. Until then the slot holds their last message.
  */
  lemma SingleOutcome(max: nat, events: seq<S.Event>, e: S.Event)
    requires !CallerAfter(max, events).closed
    ensures CallerAfter(max, events).lim == Limits(max, false)
    ensures Outcome(CallerAfter(max, events), e, CallerAfter(max, events + [e, S.RunPosted]))
  {
    TwoMore(max, events, e);
    if e.Data? {
      SingleData(CallerAfter(max, events), e.chunk);
    }
  }
}
