/**
 How a response stream ends: that the trailers go out, and whose status the client's
 call keeps.
*/
module ResponseEnd {
  import opened Bytes
  import opened Statuses
  import opened Lpm
  import opened Incremental
  import opened SendQueue
  import opened Metadata
  import opened Receiving
  import opened ResponsePipe

  /** One step of a run. */
  lemma LastStep(maxResponse: nat, maxReceive: nat, events: seq<Event>)
    requires events != []
    ensures var before := RunOf(maxResponse, maxReceive, events[..|events| - 1]);
            RunOf(maxResponse, maxReceive, events) == Step(before, events[|events| - 1])
  {}

  // ----- The trailers go out -----

  /** How often the transport asks for octets. */
  function Pulls(events: seq<Event>): nat {
    if events == [] then 0
    else Pulls(events[..|events| - 1]) + (if events[|events| - 1].Pull? && events[|events| - 1].len > 0 then 1 else 0)
  }

  /** A finished response on an open stream, whose trailers are out or that has at most `left` octets to send. */
  predicate Draining(s: Server, left: int) {
    s.writer.finished && !s.closed && s.writer.queue.WellFormed() && (Ended(s) || |s.writer.queue.Remaining()| <= left)
  }

  lemma PullDrains(s: Server, len: nat, left: int)
    requires ServerInv(s) && Draining(s, left) && len > 0 && !Ended(s)
    ensures Draining(Send(s, Pull(len)), left - 1)
  {
    var q := s.writer.queue;
    SendKeepsInv(s, Pull(len));
    EmptyMeansSent(q);
    if q.pending != [] {
      DrainConserves(q, len);
    }
  }

  lemma StepDrains(s: Server, e: Event, left: int)
    requires ServerInv(s) && Draining(s, left) && !e.ServerClose?
    ensures Draining(Send(s, e), left)
    ensures e.Pull? && e.len > 0 ==> Draining(Send(s, e), left - 1)
  {
    SendKeepsInv(s, e);
    match e
    case Pull(len) =>
      if len > 0 && !Ended(s) {
        PullDrains(s, len, left);
      } else if !Ended(s) && s.writer.queue.pending != [] {
        DrainConserves(s.writer.queue, len);
      }
    case _ =>
  }

  lemma {:induction false} PullsDrain(maxResponse: nat, maxReceive: nat, events: seq<Event>, more: seq<Event>)
    requires var s := RunOf(maxResponse, maxReceive, events).s; s.writer.finished && !s.closed
    requires forall i | 0 <= i < |more| :: !more[i].ServerClose?
    ensures Draining(RunOf(maxResponse, maxReceive, events + more).s,
                     |RunOf(maxResponse, maxReceive, events).s.writer.queue.Remaining()| - Pulls(more))
    decreases |more|
  {
    if more == [] {
      assert events + more == events;
    } else {
      var front, e := more[..|more| - 1], more[|more| - 1];
      var all := events + more;
      assert all[..|all| - 1] == events + front;
      PullsDrain(maxResponse, maxReceive, events, front);
      LastStep(maxResponse, maxReceive, all);
      StepDrains(RunOf(maxResponse, maxReceive, events + front).s, e,
                 |RunOf(maxResponse, maxReceive, events).s.writer.queue.Remaining()| - Pulls(front));
    }
  }

  /**
   Exactly once: as long as the stream stays open, a finished response's trailers are
   out after more pulls than octets remained, whatever else happens in between; they
   went out once and carry the status of the first Finish.
  */
  lemma TrailersGoOutOnce(maxResponse: nat, maxReceive: nat, events: seq<Event>, more: seq<Event>)
    requires var s := RunOf(maxResponse, maxReceive, events).s;
             s.writer.finished && !s.closed && Pulls(more) > |s.writer.queue.Remaining()|
    requires forall i | 0 <= i < |more| :: !more[i].ServerClose?
    ensures var s := RunOf(maxResponse, maxReceive, events + more).s;
            && |s.trailersSent| == 1
            && s.finishedWith.Some? && TrailerStatus(s.trailersSent[0]) == s.finishedWith.value
            && s.sent == R.WireOf(s.written)
  {
    PullsDrain(maxResponse, maxReceive, events, more);
    TrailersComeLast(maxResponse, maxReceive, events + more);
  }

  // ----- An undisturbed call -----

  /** An event with which the client's side breaks the call off: a failure of its own, or a close before the trailers. */
  predicate BreaksOff(p: Pipe, e: Event) {
    e.Fail? || (e.StreamClose? && !p.r.trailersIn)
  }

  predicate NeverBrokenOff(maxResponse: nat, maxReceive: nat, events: seq<Event>) {
    events == []
    || (NeverBrokenOff(maxResponse, maxReceive, events[..|events| - 1])
        && !BreaksOff(RunOf(maxResponse, maxReceive, events[..|events| - 1]), events[|events| - 1]))
  }

  predicate Undisturbed(p: Pipe, maxResponse: nat, maxReceive: nat) {
    && p.r.call.failed.None? && p.r.call.input.lim == Limits(maxReceive, false)
    && p.s.writer.maxResponseSize == maxResponse
  }

  /**
   With the client's limit not below the server's, a call that nobody breaks off does
   not fail, up to and after the close of its stream: its final status is the server's
   from the moment the trailers are in.
  */
  lemma {:induction false} UndisturbedRun(maxResponse: nat, maxReceive: nat, events: seq<Event>)
    requires maxResponse <= maxReceive && NeverBrokenOff(maxResponse, maxReceive, events)
    ensures var p := RunOf(maxResponse, maxReceive, events);
            && p.r.call.failed.None?
            && p.r.call.final == if p.r.trailersIn then p.s.finishedWith else None
    ensures Undisturbed(RunOf(maxResponse, maxReceive, events), maxResponse, maxReceive)
  {
    if events != [] {
      var front := events[..|events| - 1];
      UndisturbedRun(maxResponse, maxReceive, front);
      LastStep(maxResponse, maxReceive, events);
      UndisturbedStep(RunOf(maxResponse, maxReceive, front), events[|events| - 1], maxResponse, maxReceive);
    }
    UndisturbedStatus(RunOf(maxResponse, maxReceive, events));
  }

  lemma UndisturbedStatus(p: Pipe)
    requires Inv(p) && p.r.call.failed.None?
    ensures p.r.call.final == if p.r.trailersIn then p.s.finishedWith else None
  {}

  lemma UndisturbedStep(p: Pipe, e: Event, maxResponse: nat, maxReceive: nat)
    requires Inv(p) && Undisturbed(p, maxResponse, maxReceive) && maxResponse <= maxReceive && !BreaksOff(p, e)
    ensures Undisturbed(Step(p, e), maxResponse, maxReceive)
  {
    TakeDoesNotFail(p.r, p.s, e);
    assert Send(p.s, e).writer.maxResponseSize == p.s.writer.maxResponseSize;
  }

  lemma TakeDoesNotFail(r: Receiver, s: Server, e: Event)
    requires ServerInv(s) && ReceiverInv(r, s) && r.call.failed.None? && !BreaksOff(Pipe(s, r), e)
    requires s.writer.maxResponseSize <= r.call.input.lim.max && !r.call.input.lim.strict
    ensures Take(r, s, e).call.failed.None? && Take(r, s, e).call.input.lim == r.call.input.lim
  {
    if e.Deliver? {
      if !r.call.closed {
        DeliverIsClean(r, s, r.delivered + Min(e.n, |s.sent| - r.delivered));
      }
    } else {
      OtherDoesNotFail(r, s, e);
    }
  }

  lemma OtherDoesNotFail(r: Receiver, s: Server, e: Event)
    requires r.call.input.parser.WellFormed() && r.delivered <= |s.sent|
    requires !e.Deliver? && !BreaksOff(Pipe(s, r), e) && (r.trailersIn && !r.call.closed ==> r.call.trailersDone)
    ensures Take(r, s, e).call.failed == r.call.failed && Take(r, s, e).call.input.lim == r.call.input.lim
  {}

  lemma DeliverIsClean(r: Receiver, s: Server, end: nat)
    requires ServerInv(s) && ReceiverInv(r, s) && r.delivered <= end <= |s.sent| && !r.call.closed
    requires s.writer.maxResponseSize <= r.call.input.lim.max && !r.call.input.lim.strict
    ensures r.call.OnData(s.sent[r.delivered..end]).failed == r.call.failed
  {
    var chunk, input := s.sent[r.delivered..end], r.call.input;
    assert s.sent[..end] == s.sent[..r.delivered] + chunk;
    if chunk != [] {
      ReceiveKeepsFaith(input, chunk);
      FedIsAPrefix(input.lim, s, input.Receive(chunk).fed);
    }
  }

  // ----- Who has the last word -----

  /** The event that closes a call which is open, with its trailers in, before `more`. */
  function Closer(more: seq<Event>): Option<Event> {
    if more == [] then None
    else
      var front, e := Closer(more[..|more| - 1]), more[|more| - 1];
      if front.Some? then front else if e.Fail? || e.StreamClose? then Some(e) else None
  }

  /** After it the executor has run what was posted. */
  predicate Told(more: seq<Event>)
    ensures Told(more) ==> Closer(more).Some?
  {
    more != [] && (Told(more[..|more| - 1]) || (more[|more| - 1].RunPosted? && Closer(more[..|more| - 1]).Some?))
  }

  /** The state after `more`: closed by the first closing event, and by nothing else. */
  predicate ClosedBy(c: ClientStream.Client, more: seq<Event>) {
    match Closer(more)
    case None => !c.closed && c.failed.None? && c.posted.None?
    case Some(Fail(f)) => c.closed && c.failed == Some(f) && (c.posted.None? <==> Told(more))
    case Some(_) => c.closed && c.failed.None? && c.posted.None?
  }

  lemma StepClosesOnce(p: Pipe, e: Event, front: seq<Event>, more: seq<Event>)
    requires Inv(p) && p.r.call.trailersDone && ClosedBy(p.r.call, front)
    requires more != [] && more[..|more| - 1] == front && more[|more| - 1] == e
    ensures Step(p, e).r.call.trailersDone && ClosedBy(Step(p, e).r.call, more)
    ensures Step(p, e).s.finishedWith == p.s.finishedWith
  {
    SendKeepsInv(p.s, e);
    TakeOnceIn(p.r, p.s, e);
    ClosesOnce(p.r.call, Step(p, e).r.call, front, more);
  }

  lemma ClosesOnce(c: ClientStream.Client, c': ClientStream.Client, front: seq<Event>, more: seq<Event>)
    requires more != [] && front == more[..|more| - 1] && c.trailersDone && ClosedBy(c, front)
    requires var e := more[|more| - 1]; OnceIn(c, e, c')
    ensures ClosedBy(c', more)
  {}

  /** What an event does to a call that has its trailers. */
  predicate OnceIn(c: ClientStream.Client, e: Event, c': ClientStream.Client) {
    match e
    case Fail(f) => c' == c.Fail(f)
    case StreamClose(error) => c' == c.OnStreamClose(error)
    case RunPosted => c' == c.RunPosted()
    case _ => c'.closed == c.closed && c'.failed == c.failed && c'.posted == c.posted
  }

  /** With the trailers in, only these events do anything to the call but read from it. */
  lemma TakeOnceIn(r: Receiver, s: Server, e: Event)
    requires ServerInv(s) && ReceiverInv(r, s) && r.call.trailersDone
    ensures Take(r, s, e).call.trailersDone && OnceIn(r.call, e, Take(r, s, e).call)
  {
    match e
    case Deliver(n) =>
      var end := r.delivered + Min(n, |s.sent| - r.delivered);
      assert s.sent[r.delivered..end] == [];
      assert Take(r, s, e).call == r.call;
    case DeliverTrailers => assert Take(r, s, e) == r;
    case Fail(f) => assert Take(r, s, e).call == r.call.Fail(f);
    case StreamClose(error) => assert r.streamClosed ==> r.call.closed;
    case RunPosted => assert Take(r, s, e).call == r.call.RunPosted();
    case _ =>
  }

  lemma {:induction false} ClosedOnce(maxResponse: nat, maxReceive: nat, events: seq<Event>, more: seq<Event>)
    requires var c := RunOf(maxResponse, maxReceive, events).r.call; c.trailersDone && !c.closed
    ensures var p0, p := RunOf(maxResponse, maxReceive, events), RunOf(maxResponse, maxReceive, events + more);
            p.r.call.trailersDone && ClosedBy(p.r.call, more) && p.s.finishedWith == p0.s.finishedWith
    decreases |more|
  {
    if more == [] {
      assert events + more == events;
    } else {
      var front, all := more[..|more| - 1], events + more;
      assert all[..|all| - 1] == events + front;
      ClosedOnce(maxResponse, maxReceive, events, front);
      LastStep(maxResponse, maxReceive, all);
      StepClosesOnce(RunOf(maxResponse, maxReceive, events + front), more[|more| - 1], front, more);
    }
  }

  /** The call was failed from the client's side with another status, before its stream closed, and the executor has told it so. */
  predicate Overruled(status: Option<Status>, more: seq<Event>)
    ensures Overruled(status, more) ==> Closer(more).Some? && Closer(more).value.Fail?
  {
    Told(more) && match Closer(more) { case Some(Fail(f)) => Some(f) != status case _ => false }
  }

  /** A stream that closed after its trailers stays closed without a failure. */
  lemma {:induction false} ClosedStays(maxResponse: nat, maxReceive: nat, events: seq<Event>, more: seq<Event>)
    requires var c := RunOf(maxResponse, maxReceive, events).r.call; c.trailersDone && c.closed && c.failed.None?
    ensures var p0, p := RunOf(maxResponse, maxReceive, events), RunOf(maxResponse, maxReceive, events + more);
            && p.r.call.trailersDone && p.r.call.closed && p.r.call.failed.None?
            && p.s.finishedWith == p0.s.finishedWith
    decreases |more|
  {
    if more == [] {
      assert events + more == events;
    } else {
      var front, all := more[..|more| - 1], events + more;
      assert all[..|all| - 1] == events + front;
      ClosedStays(maxResponse, maxReceive, events, front);
      LastStep(maxResponse, maxReceive, all);
      StepStaysClosed(RunOf(maxResponse, maxReceive, events + front), more[|more| - 1]);
    }
  }

  lemma StepStaysClosed(p: Pipe, e: Event)
    requires Inv(p) && p.r.call.trailersDone && p.r.call.closed && p.r.call.failed.None?
    ensures var p' := Step(p, e);
            && p'.r.call.trailersDone && p'.r.call.closed && p'.r.call.failed.None?
            && p'.s.finishedWith == p.s.finishedWith
  {
    SendKeepsInv(p.s, e);
    TakeOnceIn(p.r, p.s, e);
  }

  /**
   From any reachable state with the trailers in and no failure recorded, the final
   status stays the server's for ever if and only if the stream has closed already, or
   no local failure with another status comes before the close, or its delivery is
   still pending. `closed_` decides: the first to set it has the last word.
  */
  lemma LastWord(maxResponse: nat, maxReceive: nat, events: seq<Event>, more: seq<Event>)
    requires var c := RunOf(maxResponse, maxReceive, events).r.call; c.trailersDone && c.failed.None?
    ensures var p := RunOf(maxResponse, maxReceive, events);
            var status, final := p.s.finishedWith, RunOf(maxResponse, maxReceive, events + more).r.call.final;
            && status.Some? && p.r.call.final == status
            && (final == status <==> p.r.call.closed || !Overruled(status, more))
            && (!p.r.call.closed && Overruled(status, more) ==> final == Some(Closer(more).value.failure))
  {
    if RunOf(maxResponse, maxReceive, events).r.call.closed {
      ClosedStays(maxResponse, maxReceive, events, more);
    } else {
      ClosedOnce(maxResponse, maxReceive, events, more);
    }
    FinalStatus(maxResponse, maxReceive, events);
    FinalStatus(maxResponse, maxReceive, events + more);
  }

  /** A run that loses an OK status: the trailers, then a deadline, before the stream closes. */
  lemma StatusIsLost(maxResponse: nat, maxReceive: nat, status: Failure)
    ensures var events := [Finish(OK_STATUS), Pull(1), DeliverTrailers];
            && RunOf(maxResponse, maxReceive, events).r.call.final == Some(OK_STATUS)
            && RunOf(maxResponse, maxReceive, events + [Fail(status), RunPosted]).r.call.final == Some(status)
  {
    var e3 := [Finish(OK_STATUS), Pull(1), DeliverTrailers];
    FinishedAtOnce(maxResponse, maxReceive);
    var m0: seq<Event>, m1, m2 := [], [Fail(status)], [Fail(status), RunPosted];
    assert m1[..0] == m0 && m2[..1] == m1;
    assert Closer(m1) == Some(Fail(status)) && Told(m2) && Closer(m2) == Some(Fail(status));
    ClosedOnce(maxResponse, maxReceive, e3, m2);
    FinalStatus(maxResponse, maxReceive, e3);
    FinalStatus(maxResponse, maxReceive, e3 + m2);
  }

  lemma FinishedAtOnce(maxResponse: nat, maxReceive: nat)
    ensures var p := RunOf(maxResponse, maxReceive, [Finish(OK_STATUS), Pull(1), DeliverTrailers]);
            p.r.call.trailersDone && !p.r.call.closed && p.s.finishedWith == Some(OK_STATUS)
  {
    var e0: seq<Event>, e1, e2 := [], [Finish(OK_STATUS)], [Finish(OK_STATUS), Pull(1)];
    var e3 := [Finish(OK_STATUS), Pull(1), DeliverTrailers];
    assert e1[..0] == e0 && e2[..1] == e1 && e3[..2] == e2;
    LastStep(maxResponse, maxReceive, e1);
    LastStep(maxResponse, maxReceive, e2);
    LastStep(maxResponse, maxReceive, e3);
    assert RunOf(maxResponse, maxReceive, e0) == Start(maxResponse, maxReceive);
    var p := OkAtOnce(Start(maxResponse, maxReceive));
  }

  lemma OkAtOnce(p0: Pipe) returns (p: Pipe)
    requires Inv(p0) && exists a, b :: p0 == Start(a, b)
    ensures Inv(Step(p0, Finish(OK_STATUS)))
    ensures Inv(Step(Step(p0, Finish(OK_STATUS)), Pull(1)))
    ensures p == Step(Step(Step(p0, Finish(OK_STATUS)), Pull(1)), DeliverTrailers)
    ensures p.r.call.trailersDone && !p.r.call.closed && p.s.finishedWith == Some(OK_STATUS)
  {
    var p1 := Step(p0, Finish(OK_STATUS));
    StepKeepsInv(p0, Finish(OK_STATUS));
    assert p1.s.writer.finished && p1.s.writer.queue == NOTHING && p1.r == p0.r && p1.s.sent == [];
    var p2 := Step(p1, Pull(1));
    StepKeepsInv(p1, Pull(1));
    assert Ended(p2.s) && p2.r == p0.r && p2.s.sent == [];
    p := Step(p2, DeliverTrailers);
  }
}
