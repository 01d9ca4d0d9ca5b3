/**
 The response stream makes progress: when a Write is accepted, and that a client which
 keeps reading gets all that was, and then the server's status.
*/
module ResponseProgress {
  import opened Bytes
  import opened Statuses
  import opened Lpm
  import opened Incremental
  import opened SendQueue
  import opened Metadata
  import opened Receiving
  import opened ClientStream
  import opened ResponsePipe
  import opened ResponseEnd
  import R = RequestPipe
  import StreamQueue

  lemma NextStep(maxResponse: nat, maxReceive: nat, events: seq<Event>, e: Event)
    ensures var before := RunOf(maxResponse, maxReceive, events);
            Inv(before) && RunOf(maxResponse, maxReceive, events + [e]) == Step(before, e)
  {
    assert (events + [e])[..|events + [e]| - 1] == events;
  }

  lemma {:induction false} LimitStays(maxResponse: nat, maxReceive: nat, events: seq<Event>)
    ensures RunOf(maxResponse, maxReceive, events).s.writer.maxResponseSize == maxResponse
  {
    if events != [] {
      var front, e := events[..|events| - 1], events[|events| - 1];
      assert events == front + [e];
      LimitStays(maxResponse, maxReceive, front);
      NextStep(maxResponse, maxReceive, front, e);
      SendKeepsLimit(RunOf(maxResponse, maxReceive, front).s, e);
    }
  }

  lemma SendKeepsLimit(s: Server, e: Event)
    requires s.writer.queue.WellFormed()
    ensures Send(s, e).writer.maxResponseSize == s.writer.maxResponseSize
  {}

  // ----- What single calls do -----

  /** The server after a Write that was accepted: one frame more to send, nothing else. */
  predicate Grew(s: Server, s': Server, m: bytes)
    requires s.writer.queue.WellFormed() && s'.writer.queue.WellFormed()
  {
    && |m| <= MAX_PAYLOAD
    && s'.written == s.written + [m]
    && s'.writer.queue.Remaining() == s.writer.queue.Remaining() + R.PlainFrame(m)
    && !s'.writer.finished && s'.finishedWith == s.finishedWith && s'.closed == s.closed
    && s'.sent == s.sent && s'.trailersSent == s.trailersSent
  }

  /**
   Over all runs: a Write is accepted if and only if the writer is not finished and the
   message is within the limit and can be framed. A message beyond the limit finishes the
   call with RESOURCE_EXHAUSTED; any other refused Write changes nothing.
  */
  lemma WriteOutcome(maxResponse: nat, maxReceive: nat, events: seq<Event>, m: bytes)
    ensures var s, s' := RunOf(maxResponse, maxReceive, events).s, RunOf(maxResponse, maxReceive, events + [Write(m)]).s;
            && (!s.writer.finished && |m| <= maxResponse && |m| <= MAX_PAYLOAD ==> Grew(s, s', m))
            && (!s.writer.finished && |m| > maxResponse ==>
                  s'.writer.finished && s'.finishedWith.Some? && s'.finishedWith.value.code == RESOURCE_EXHAUSTED
                  && s'.written == s.written && s'.writer.queue == s.writer.queue && s'.sent == s.sent)
            && (s.writer.finished || (|m| <= maxResponse && |m| > MAX_PAYLOAD) ==> s' == s)
  {
    NextStep(maxResponse, maxReceive, events, Write(m));
    LimitStays(maxResponse, maxReceive, events);
    WriteStep(RunOf(maxResponse, maxReceive, events).s, m);
  }

  lemma WriteStep(s: Server, m: bytes)
    requires ServerInv(s)
    ensures var s' := Send(s, Write(m));
            && s'.writer.queue.WellFormed()
            && (!s.writer.finished && |m| <= s.writer.maxResponseSize && |m| <= MAX_PAYLOAD ==> Grew(s, s', m))
            && (!s.writer.finished && |m| > s.writer.maxResponseSize ==>
                  s'.writer.finished && s'.finishedWith.Some? && s'.finishedWith.value.code == RESOURCE_EXHAUSTED
                  && s'.written == s.written && s'.writer.queue == s.writer.queue && s'.sent == s.sent)
            && (s.writer.finished || (|m| <= s.writer.maxResponseSize && |m| > MAX_PAYLOAD) ==> s' == s)
  {
    if |m| <= MAX_PAYLOAD {
      PushAppends(s.writer.queue, R.PlainFrame(m));
    }
  }

  /** The first Finish of an unfinished writer takes effect with its status; a later one changes nothing. */
  lemma FinishOutcome(maxResponse: nat, maxReceive: nat, events: seq<Event>, status: Status)
    ensures var s, s' := RunOf(maxResponse, maxReceive, events).s, RunOf(maxResponse, maxReceive, events + [Finish(status)]).s;
            && s'.writer.finished
            && (s.writer.finished ==> s' == s)
            && (!s.writer.finished ==>
                  s'.finishedWith == Some(status) && !s'.writer.deferred
                  && s'.written == s.written && s'.writer.queue == s.writer.queue && s'.sent == s.sent)
  {
    NextStep(maxResponse, maxReceive, events, Finish(status));
  }

  /** Over all runs: once the stream has closed the writer is finished, so no Write is accepted. */
  lemma {:induction false} ClosedIsFinished(maxResponse: nat, maxReceive: nat, events: seq<Event>)
    ensures var s := RunOf(maxResponse, maxReceive, events).s;
            s.closed ==> s.writer.finished
  {
    if events != [] {
      var front, e := events[..|events| - 1], events[|events| - 1];
      assert events == front + [e];
      ClosedIsFinished(maxResponse, maxReceive, front);
      NextStep(maxResponse, maxReceive, front, e);
      StaysFinished(RunOf(maxResponse, maxReceive, front).s, e);
    }
  }

  /** The close itself sends nothing, and after it nothing is sent. */
  lemma NothingAfterClose(maxResponse: nat, maxReceive: nat, events: seq<Event>, e: Event)
    ensures var s, s' := RunOf(maxResponse, maxReceive, events).s, RunOf(maxResponse, maxReceive, events + [e]).s;
            s.closed || e.ServerClose? ==>
              s'.closed && s'.writer.finished && s'.written == s.written && s'.sent == s.sent && s'.trailersSent == s.trailersSent
  {
    ClosedIsFinished(maxResponse, maxReceive, events);
    NextStep(maxResponse, maxReceive, events, e);
    StaysFinished(RunOf(maxResponse, maxReceive, events).s, e);
  }

  lemma StaysFinished(s: Server, e: Event)
    requires ServerInv(s) && (s.closed ==> s.writer.finished)
    ensures var s' := Send(s, e);
            && (s'.closed ==> s'.writer.finished)
            && (s.closed || e.ServerClose? ==>
                  s'.closed && s'.written == s.written && s'.sent == s.sent && s'.trailersSent == s.trailersSent)
  {}

  // ----- Turns -----

  /** An event that neither closes the stream nor fails the call. */
  predicate GoesOn(e: Event) {
    !e.ServerClose? && !e.StreamClose? && !e.Fail?
  }

  /** The events from the a-th to the b-th. */
  predicate AllGoOn(events: seq<Event>, a: nat, b: nat)
    requires a <= b <= |events|
  {
    forall i | a <= i < b :: GoesOn(events[i])
  }

  /** The client still listens, and will refuse nothing that the server may write. */
  predicate Quiet(p: Pipe) {
    && p.r.call.failed.None? && !p.r.call.closed && !p.r.streamClosed
    && !p.r.call.input.lim.strict && p.s.writer.maxResponseSize <= p.r.call.input.lim.max
  }

  lemma StepStaysQuiet(p: Pipe, e: Event)
    requires Inv(p) && Quiet(p) && GoesOn(e)
    ensures Quiet(Step(p, e))
  {
    TakeDoesNotFail(p.r, p.s, e);
    StaysUnclosed(p.r, p.s, e);
    SendKeepsLimit(p.s, e);
  }

  lemma StaysUnclosed(r: Receiver, s: Server, e: Event)
    requires r.call.input.parser.WellFormed() && r.delivered <= |s.sent| && GoesOn(e)
    requires !r.call.closed && !r.streamClosed && Take(r, s, e).call.failed.None?
    ensures !Take(r, s, e).call.closed && !Take(r, s, e).streamClosed
  {}

  /** The turns that the events from the a-th to the b-th give, by what each counts for. */
  function Turns(events: seq<Event>, a: nat, b: nat, weight: Event -> nat): nat
    requires a <= b <= |events|
    decreases b
  {
    if a == b then 0 else Turns(events, a, b - 1, weight) + weight(events[b - 1])
  }

  // ----- The states of a history -----

  predicate Next(p: Pipe, e: Event, p': Pipe) {
    Inv(p) && Inv(p') && p' == Step(p, e)
  }

  /** The states that a history goes through. */
  ghost predicate Follows(states: seq<Pipe>, events: seq<Event>) {
    |states| == |events| + 1 && forall i: nat | i < |events| :: NextAt(states, events, i)
  }

  predicate NextAt(states: seq<Pipe>, events: seq<Event>, i: nat)
    requires i < |events| && |states| == |events| + 1
  {
    Next(states[i], events[i], states[i + 1])
  }

  /** The states of a run, from the first on. */
  function States(maxResponse: nat, maxReceive: nat, events: seq<Event>): (states: seq<Pipe>)
    ensures |states| == |events| + 1
    ensures forall k: nat | k <= |events| :: states[k] == RunOf(maxResponse, maxReceive, events[..k])
  {
    seq(|events| + 1, k requires 0 <= k <= |events| => RunOf(maxResponse, maxReceive, events[..k]))
  }

  lemma StatesFollow(maxResponse: nat, maxReceive: nat, events: seq<Event>)
    ensures Follows(States(maxResponse, maxReceive, events), events)
  {
    var states := States(maxResponse, maxReceive, events);
    forall i: nat | i < |events| ensures NextAt(states, events, i) {
      PrefixStep(maxResponse, maxReceive, events, i);
    }
  }

  lemma PrefixStep(maxResponse: nat, maxReceive: nat, events: seq<Event>, i: nat)
    requires i < |events|
    ensures Next(RunOf(maxResponse, maxReceive, events[..i]), events[i], RunOf(maxResponse, maxReceive, events[..i + 1]))
  {
    var front := events[..i];
    assert events[..i + 1] == front + [events[i]];
    NextStep(maxResponse, maxReceive, front, events[i]);
  }

  lemma {:induction false} StaysQuiet(states: seq<Pipe>, events: seq<Event>, a: nat, b: nat)
    requires Follows(states, events) && a <= b <= |events| && AllGoOn(events, a, b)
    requires Quiet(states[a])
    ensures Quiet(states[b])
    decreases b
  {
    if a < b {
      StaysQuiet(states, events, a, b - 1);
      QuietAt(states, events, b - 1);
    }
  }

  lemma QuietAt(states: seq<Pipe>, events: seq<Event>, i: nat)
    requires Follows(states, events) && i < |events| && GoesOn(events[i]) && Quiet(states[i])
    ensures Quiet(states[i + 1])
  {
    assert NextAt(states, events, i);
    StepStaysQuiet(states[i], events[i]);
  }

  // ----- The generator is drained -----

  function PullsOf(e: Event): nat {
    match e case Pull(len) => if len > 0 then 1 else 0 case _ => 0
  }

  lemma {:induction false} PullsDrain(states: seq<Pipe>, events: seq<Event>, a: nat, b: nat, left: int)
    requires Follows(states, events) && a <= b <= |events| && AllGoOn(events, a, b)
    requires Draining(states[a].s, left)
    ensures Draining(states[b].s, left - Turns(events, a, b, PullsOf))
    decreases b
  {
    if a < b {
      PullsDrain(states, events, a, b - 1, left);
      DrainingAt(states, events, b - 1, left - Turns(events, a, b - 1, PullsOf));
    }
  }

  lemma DrainingAt(states: seq<Pipe>, events: seq<Event>, i: nat, left: int)
    requires Follows(states, events) && i < |events| && GoesOn(events[i]) && Draining(states[i].s, left)
    ensures Draining(states[i + 1].s, left - PullsOf(events[i]))
  {
    assert NextAt(states, events, i);
    StepDrains(states[i].s, events[i], left);
  }

  // ----- The transport delivers the octets, then the trailers -----

  function OctetsOf(e: Event): nat {
    match e case Deliver(n) => n case _ => 0
  }

  function TrailersOf(e: Event): nat {
    match e case DeliverTrailers => 1 case _ => 0
  }

  function ReadsOf(e: Event): nat {
    match e case Read => 1 case _ => 0
  }

  predicate Arriving(p: Pipe, left: int) {
    Ended(p.s) && p.r.delivered <= |p.s.sent| && (p.r.delivered == |p.s.sent| || |p.s.sent| - p.r.delivered <= left)
  }

  lemma DeliveryTurn(p: Pipe, e: Event, left: int)
    requires Inv(p) && !p.r.streamClosed && Arriving(p, left)
    ensures Arriving(Step(p, e), left - OctetsOf(e))
  {
    SendKeepsInv(p.s, e);
    DeliveredBy(p.r, p.s, e);
  }

  lemma DeliveredBy(r: Receiver, s: Server, e: Event)
    requires r.call.input.parser.WellFormed() && r.delivered <= |s.sent| && !r.streamClosed
    ensures Take(r, s, e).delivered
            == r.delivered + match e { case Deliver(n) => Min(n, |s.sent| - r.delivered) case _ => 0 }
  {}

  lemma {:induction false} AllArrive(states: seq<Pipe>, events: seq<Event>, a: nat, b: nat, left: int)
    requires Follows(states, events) && a <= b <= |events| && AllGoOn(events, a, b)
    requires Quiet(states[a])
    requires Arriving(states[a], left)
    ensures Arriving(states[b], left - Turns(events, a, b, OctetsOf))
    decreases b
  {
    if a < b {
      AllArrive(states, events, a, b - 1, left);
      StaysQuiet(states, events, a, b - 1);
      ArrivingAt(states, events, b - 1, left - Turns(events, a, b - 1, OctetsOf));
    }
  }

  lemma ArrivingAt(states: seq<Pipe>, events: seq<Event>, i: nat, left: int)
    requires Follows(states, events) && i < |events| && Quiet(states[i]) && Arriving(states[i], left)
    ensures Arriving(states[i + 1], left - OctetsOf(events[i]))
  {
    assert NextAt(states, events, i);
    DeliveryTurn(states[i], events[i], left);
  }

  lemma TrailersTurn(r: Receiver, s: Server, e: Event)
    requires r.call.input.parser.WellFormed() && r.delivered <= |s.sent| && !r.streamClosed
    ensures r.trailersIn ==> Take(r, s, e).trailersIn
    ensures Ended(s) && r.delivered == |s.sent| && e.DeliverTrailers? ==> Take(r, s, e).trailersIn
  {}

  /** All octets are in, and the trailers too if they had a turn. */
  predicate AllIn(p: Pipe, turns: nat) {
    Arriving(p, 0) && (turns > 0 ==> p.r.trailersIn)
  }

  lemma {:induction false} TrailersArrive(states: seq<Pipe>, events: seq<Event>, a: nat, b: nat)
    requires Follows(states, events) && a <= b <= |events| && AllGoOn(events, a, b)
    requires Quiet(states[a])
    requires AllIn(states[a], 0)
    ensures AllIn(states[b], Turns(events, a, b, TrailersOf))
    decreases b
  {
    if a < b {
      TrailersArrive(states, events, a, b - 1);
      StaysQuiet(states, events, a, b - 1);
      AllInAt(states, events, b - 1, Turns(events, a, b - 1, TrailersOf));
    }
  }

  lemma AllInAt(states: seq<Pipe>, events: seq<Event>, i: nat, turns: nat)
    requires Follows(states, events) && i < |events| && Quiet(states[i]) && AllIn(states[i], turns)
    ensures AllIn(states[i + 1], turns + TrailersOf(events[i]))
  {
    assert NextAt(states, events, i);
    DeliveryTurn(states[i], events[i], 0);
    TrailersTurn(states[i].r, states[i].s, events[i]);
  }

  // ----- The client reads -----

  const END := StreamQueue.PopResult(OK_STATUS, None)

  /** What a reader is told at the end of a call with a status. */
  function Terminal(status: Status): StreamQueue.PopResult {
    if status.Ok() then END else StreamQueue.PopResult(status, None)
  }

  /** Without a failure of its own, the client's results come in order, with the server's status for their end. */
  predicate Reported(p: Pipe) {
    p.r.call.failed.None? ==> StreamQueue.Orderly(p.r.call.input.reader, LastResult(p))
  }

  function LastResult(p: Pipe): StreamQueue.PopResult {
    if p.r.call.trailersDone && p.s.finishedWith.Some? then Terminal(p.s.finishedWith.value) else END
  }

  lemma StepKeepsReported(p: Pipe, e: Event)
    requires Inv(p) && Reported(p)
    ensures Inv(Step(p, e)) && Reported(Step(p, e))
  {
    StepKeepsInv(p, e);
    SendKeepsInv(p.s, e);
    TakeKeepsReported(p.r, p.s, e);
  }

  lemma TakeKeepsReported(r: Receiver, s: Server, e: Event)
    requires ServerInv(s) && ReceiverInv(r, s) && Reported(Pipe(s, r))
    ensures Take(r, s, e).call.trailersDone ==> s.finishedWith.Some?
    ensures Reported(Pipe(s, Take(r, s, e)))
  {
    TakeKeepsInv(r, s, e);
    match e
    case Read => ReadTurn(r, s);
    case Deliver(n) => ChunkKeepsReported(r, s, n);
    case DeliverTrailers => TrailersKeepReported(r, s);
    case _ =>
  }

  lemma ReadTurn(r: Receiver, s: Server)
    requires ServerInv(s) && ReceiverInv(r, s) && Reported(Pipe(s, r))
    ensures var run, run' := r.call.input.reader, Take(r, s, Read).call.input.reader;
            && Reported(Pipe(s, Take(r, s, Read)))
            && (r.call.failed.None? && r.call.trailersDone ==> |run'.results| == |run.results| + 1)
  {
    var c := r.call;
    if c.failed.None? {
      StreamQueue.ReadKeepsOrder(c.input.reader, LastResult(Pipe(s, r)));
    }
  }

  lemma ChunkKeepsReported(r: Receiver, s: Server, n: nat)
    requires ServerInv(s) && ReceiverInv(r, s) && Reported(Pipe(s, r))
    ensures Take(r, s, Deliver(n)).call.trailersDone == r.call.trailersDone
    ensures Reported(Pipe(s, Take(r, s, Deliver(n))))
  {
    var chunk := s.sent[r.delivered..r.delivered + Min(n, |s.sent| - r.delivered)];
    if !r.streamClosed {
      ChunkKeepsOrder(r.call, chunk);
    }
  }

  /** No octets come after the trailers; before them, a chunk only adds to what can be read. */
  lemma ChunkKeepsOrder(c: Client, chunk: bytes)
    requires c.input.parser.WellFormed() && (c.trailersDone && !c.closed ==> chunk == [])
    requires !c.trailersDone && c.failed.None? ==> !c.input.reader.queue.eos && c.input.reader.queue.error.None?
    ensures var c' := c.OnData(chunk);
            && c'.trailersDone == c.trailersDone
            && (c'.failed.None? ==> c.failed.None?)
            && forall t :: c'.failed.None? && StreamQueue.Orderly(c.input.reader, t) ==> StreamQueue.Orderly(c'.input.reader, t)
  {
    if !c.closed && chunk != [] {
      StreamQueue.PushAllAppends(c.input.reader.queue, Resume(c.input.lim, c.input.parser, chunk).messages);
    }
  }

  lemma TrailersKeepReported(r: Receiver, s: Server)
    requires ServerInv(s) && ReceiverInv(r, s) && Reported(Pipe(s, r))
    requires ReceiverInv(Take(r, s, DeliverTrailers), s)
    ensures Reported(Pipe(s, Take(r, s, DeliverTrailers)))
  {}

  lemma {:induction false} ResultsInOrder(maxResponse: nat, maxReceive: nat, events: seq<Event>)
    ensures Reported(RunOf(maxResponse, maxReceive, events))
  {
    if events != [] {
      var front, e := events[..|events| - 1], events[|events| - 1];
      assert events == front + [e];
      ResultsInOrder(maxResponse, maxReceive, front);
      NextStep(maxResponse, maxReceive, front, e);
      StepKeepsReported(RunOf(maxResponse, maxReceive, front), e);
    }
  }

  predicate AllReported(states: seq<Pipe>) {
    forall i | 0 <= i < |states| :: Reported(states[i])
  }

  lemma ResultsGrow(r: Receiver, s: Server, e: Event)
    requires r.call.input.parser.WellFormed() && r.delivered <= |s.sent|
    ensures |Take(r, s, e).call.input.reader.results| >= |r.call.input.reader.results|
  {}

  lemma TrailersStayIn(p: Pipe, e: Event)
    requires Inv(p) && p.r.trailersIn && !p.r.call.closed && GoesOn(e)
    ensures Step(p, e).r.trailersIn && p.r.call.trailersDone && Step(p, e).s.finishedWith == p.s.finishedWith
    ensures Step(p, e).s.written == p.s.written
  {
    SendKeepsInv(p.s, e);
  }

  /** The trailers are in, for the messages and the status given, and at least `n` results are out. */
  predicate Reading(p: Pipe, written: seq<bytes>, status: Option<Status>, n: nat) {
    && p.r.trailersIn && p.s.written == written && p.s.finishedWith == status
    && |p.r.call.input.reader.results| >= n
  }

  lemma ReadingTurn(p: Pipe, e: Event, written: seq<bytes>, status: Option<Status>, n: nat)
    requires Inv(p) && Reported(p) && !p.r.call.closed && p.r.call.failed.None? && GoesOn(e) && Reading(p, written, status, n)
    ensures Reading(Step(p, e), written, status, n + ReadsOf(e))
  {
    TrailersStayIn(p, e);
    ResultsGrow(p.r, p.s, e);
    if e.Read? {
      ReadTurn(p.r, p.s);
    }
  }

  lemma {:induction false} ReadsReport(states: seq<Pipe>, events: seq<Event>, a: nat, b: nat,
                                       written: seq<bytes>, status: Option<Status>)
    requires Follows(states, events) && a <= b <= |events| && AllGoOn(events, a, b)
    requires Quiet(states[a])
    requires AllReported(states) && Reading(states[a], written, status, 0)
    ensures Reading(states[b], written, status, Turns(events, a, b, ReadsOf))
    decreases b
  {
    if a < b {
      ReadsReport(states, events, a, b - 1, written, status);
      StaysQuiet(states, events, a, b - 1);
      ReadingAt(states, events, b - 1, written, status, Turns(events, a, b - 1, ReadsOf));
    }
  }

  lemma ReadingAt(states: seq<Pipe>, events: seq<Event>, i: nat, written: seq<bytes>, status: Option<Status>, n: nat)
    requires Follows(states, events) && i < |events| && GoesOn(events[i])
    requires Reported(states[i]) && Quiet(states[i]) && Reading(states[i], written, status, n)
    ensures Reading(states[i + 1], written, status, n + ReadsOf(events[i]))
  {
    assert NextAt(states, events, i);
    ReadingTurn(states[i], events[i], written, status, n);
  }

  /** Once as many results are out as messages were accepted, and one more, they are these messages and then the status. */
  lemma AllIsReported(p: Pipe)
    requires Inv(p) && Reported(p) && Quiet(p)
    requires p.r.trailersIn && |p.r.call.input.reader.results| > |p.s.written|
    ensures p.s.finishedWith.Some? && p.r.call.final == p.s.finishedWith
    ensures var results := p.r.call.input.reader.results;
            && (forall i | 0 <= i < |p.s.written| :: results[i] == StreamQueue.PopResult(OK_STATUS, Some(p.s.written[i])))
            && results[|p.s.written|] == Terminal(p.s.finishedWith.value)
  {
    FedIsAPrefix(p.r.call.input.lim, p.s, p.r.call.input.fed);
    UndisturbedStatus(p);
    var read := StreamQueue.Messages(p.r.call.input.reader.results);
    assert p.r.call.trailersDone;
    assert |read| <= |p.s.written|;
    assert p.r.call.input.reader.queue.buffer == [];
    assert read + [] == read;
  }

  /** The turns of a history: pulls up to event b, deliveries up to c, the trailers up to d, and reads after that. */
  predicate EnoughTurns(states: seq<Pipe>, events: seq<Event>, a: nat, b: nat, c: nat, d: nat)
    requires |states| == |events| + 1 && a <= b <= c <= d <= |events| && states[a].s.writer.queue.WellFormed()
  {
    && Turns(events, a, b, PullsOf) > |states[a].s.writer.queue.Remaining()|
    && Turns(events, b, c, OctetsOf) >= |states[b].s.sent|
    && Turns(events, c, d, TrailersOf) > 0
    && Turns(events, d, |events|, ReadsOf) > |states[d].s.written|
  }

  /**
   Progress. A history in which the server has finished after `a` events, and nobody
   closes or fails the call from then on: after enough pulls, deliveries, the trailers
   and one more read than messages were accepted, the client has been given exactly the
   messages whose Write returned OK, in order, each with OK, and then the status of the
   first Finish. Anything else may happen in between.
  */
  lemma ResponseIsRead(maxResponse: nat, maxReceive: nat, events: seq<Event>, a: nat, b: nat, c: nat, d: nat)
    requires a <= b <= c <= d <= |events| && AllGoOn(events, a, |events|)
    requires var states := States(maxResponse, maxReceive, events);
             && Quiet(states[a]) && states[a].s.writer.finished && !states[a].s.closed
             && EnoughTurns(states, events, a, b, c, d)
    ensures var p := RunOf(maxResponse, maxReceive, events);
            var results := p.r.call.input.reader.results;
            && p.s.finishedWith.Some? && p.r.call.final == p.s.finishedWith && |results| > |p.s.written|
            && (forall i | 0 <= i < |p.s.written| :: results[i] == StreamQueue.PopResult(OK_STATUS, Some(p.s.written[i])))
            && results[|p.s.written|] == Terminal(p.s.finishedWith.value)
  {
    var states := States(maxResponse, maxReceive, events);
    StatesFollow(maxResponse, maxReceive, events);
    forall i | 0 <= i < |states| ensures Reported(states[i]) {
      ResultsInOrder(maxResponse, maxReceive, events[..i]);
    }
    AllIsRead(states, events, a, b, c, d);
    AllIsReported(states[|events|]);
    assert events[..|events|] == events;
  }

  lemma AllIsRead(states: seq<Pipe>, events: seq<Event>, a: nat, b: nat, c: nat, d: nat)
    requires Follows(states, events) && a <= b <= c <= d <= |events| && AllGoOn(events, a, |events|)
    requires AllReported(states) && Inv(states[a])
    requires Quiet(states[a]) && states[a].s.writer.finished && !states[a].s.closed && EnoughTurns(states, events, a, b, c, d)
    ensures var p := states[|events|];
            Quiet(p) && p.r.trailersIn && |p.r.call.input.reader.results| > |p.s.written|
  {
    TrailersReach(states, events, a, b, c, d);
    ReadsReport(states, events, d, |events|, states[d].s.written, states[d].s.finishedWith);
    StaysQuiet(states, events, d, |events|);
  }

  lemma DeliveredSoFar(states: seq<Pipe>, events: seq<Event>, a: nat, b: nat)
    requires Follows(states, events) && a <= b <= |events| && Inv(states[a])
    ensures states[b].r.delivered <= |states[b].s.sent|
  {
    if a < b {
      assert NextAt(states, events, b - 1);
    }
  }

  lemma TrailersReach(states: seq<Pipe>, events: seq<Event>, a: nat, b: nat, c: nat, d: nat)
    requires Follows(states, events) && a <= b <= c <= d <= |events| && AllGoOn(events, a, d) && Inv(states[a])
    requires Quiet(states[a]) && states[a].s.writer.finished && !states[a].s.closed && EnoughTurns(states, events, a, b, c, d)
    ensures Quiet(states[d]) && states[d].r.trailersIn
  {
    PullsDrain(states, events, a, b, |states[a].s.writer.queue.Remaining()|);
    StaysQuiet(states, events, a, b);
    DeliveredSoFar(states, events, a, b);
    AllArrive(states, events, b, c, |states[b].s.sent|);
    StaysQuiet(states, events, b, c);
    TrailersArrive(states, events, c, d);
    StaysQuiet(states, events, c, d);
  }
}
