/**
 What a channel answers: to a request, by the state it meets; to those that waited, when
 the connection is decided; to a call under way, when it ends. The status codes are
 written out as the numbers that go over the wire.
*/
module ChannelAnswers {
  import opened Bytes
  import opened Statuses
  import opened Ledgers
  import opened ChannelModel
  import opened ChannelRuns
  import opened ChannelTheorems

  /** The first and only answer given to a request is `status`; no other answer changes. */
  predicate AnsweredWith(before: Answers, after: Answers, id: Id, status: Status) {
    id !in before && after == before[id := [status]]
  }

  lemma NewAnswer(before: Answers, id: Id, status: Status)
    requires id !in before
    ensures AnsweredWith(before, Answer(before, id, status), id, status)
  {
    FirstAnswer(before, id, status);
  }

  // ----- A new unary call -----

  /** What a failed attempt to open a stream is answered with. */
  predicate Refusal(attempt: Attempt, status: Status) {
    match attempt
    case DeadlinePassed => status.code == 4
    case TooLarge => status.code == 8
    case SubmitError(s) => status == s
    case Opened => false
  }

  /** The call is under way on a stream of its own, and unanswered. */
  predicate Opens(c: Channel, c': Channel, id: Id) {
    && c'.calls.answers == c.calls.answers && c'.calls.live == c.calls.live + {id}
    && c'.unary.active == c.unary.active[c.nextStream := id]
    && c.nextStream !in c.unary.ever && c.nextStream !in c.streaming.ever && c'.nextStream > c.nextStream
  }

  /** On a ready channel a call opens a stream, or is answered by what kept it from it. */
  lemma CallOnReady(c: Channel, id: Id, attempt: Attempt)
    requires Inv(c) && c.state == Ready && id !in c.calls.known && id !in c.cancelled
    ensures var c' := Step(c, SubmitCall(id, attempt));
            && c'.state == Ready && c'.calls.queue == c.calls.queue
            && if attempt == Opened then Opens(c, c', id)
               else c'.unary == c.unary && exists status: Status ::
                      Refusal(attempt, status) && AnsweredWith(c.calls.answers, c'.calls.answers, id, status)
  {
    if attempt != Opened {
      NewAnswer(c.calls.answers, id, attempt.Status());
      assert Refusal(attempt, attempt.Status());
    }
  }

  /** On a failed channel it is UNAVAILABLE. */
  lemma CallOnFailed(c: Channel, id: Id, attempt: Attempt)
    requires Inv(c) && c.state == ConnState.Failed && id !in c.calls.known && id !in c.cancelled
    ensures var c' := Step(c, SubmitCall(id, attempt));
            && (exists status: Status :: status.code == 14 && AnsweredWith(c.calls.answers, c'.calls.answers, id, status))
            && c'.unary == c.unary && c'.state == c.state
  {
    NewAnswer(c.calls.answers, id, CHANNEL_FAILED);
  }

  /** A call whose user cancelled it before is CANCELLED, whatever the state. */
  lemma CallOfCancelled(c: Channel, id: Id, attempt: Attempt)
    requires Inv(c) && id !in c.calls.known && id in c.cancelled
    ensures var c' := Step(c, SubmitCall(id, attempt));
            && (exists status: Status :: status.code == 1 && AnsweredWith(c.calls.answers, c'.calls.answers, id, status))
            && c'.unary == c.unary && c'.state == c.state && c'.calls.queue == c.calls.queue
  {
    NewAnswer(c.calls.answers, id, CALL_CANCELLED);
  }

  /** On a channel that is not decided yet a call waits behind those that do, and the channel connects. */
  lemma CallWaits(c: Channel, id: Id, attempt: Attempt)
    requires Inv(c) && c.Undecided() && id !in c.calls.known && id !in c.cancelled && (c.state == Idle ==> c.tls.None?)
    ensures var c' := Step(c, SubmitCall(id, attempt));
            && c'.calls.queue == c.calls.queue + [id] && c'.calls.answers == c.calls.answers && c'.state == Connecting
            && c'.connects == 1 && (c.state == Idle ==> c'.connecting)
  {}

  // ----- A new connect request -----

  /** OK on a ready channel, UNAVAILABLE on a failed one. */
  lemma ConnectOnDecided(c: Channel, id: Id)
    requires Inv(c) && (c.state == Ready || c.state == ConnState.Failed) && id !in c.waiters.known
    ensures var c' := Step(c, Connect(id));
            && (exists status: Status :: status.code == (if c.state == Ready then 0 else 14)
                                 && AnsweredWith(c.waiters.answers, c'.waiters.answers, id, status))
            && c'.state == c.state && c'.waiters.queue == c.waiters.queue
  {
    NewAnswer(c.waiters.answers, id, OK_STATUS);
    NewAnswer(c.waiters.answers, id, CHANNEL_FAILED);
  }

  lemma ConnectWaits(c: Channel, id: Id)
    requires Inv(c) && c.Undecided() && id !in c.waiters.known && (c.state == Idle ==> c.tls.None?)
    ensures var c' := Step(c, Connect(id));
            && c'.waiters.queue == c.waiters.queue + [id] && c'.waiters.answers == c.waiters.answers && c'.state == Connecting
            && c'.connects == 1 && (c.state == Idle ==> c'.connecting)
  {}

  /** The first request of a channel whose TLS cannot be configured: it and all others get that error. */
  lemma FirstRequestWithoutTls(c: Channel, e: Event)
    requires Inv(c) && c.state == Idle && c.tls.Some? && Waits(c, e)
    ensures var c' := Step(c, e);
            && c'.state == Shutdown && c'.ShutdownStatus() == c.tls.value
            && (e.Connect? ==> e.id in c'.waiters.answers && c'.waiters.answers[e.id] == [c.tls.value])
            && (e.SubmitCall? ==> e.id in c'.calls.answers && c'.calls.answers[e.id] == [c.tls.value])
            && (e.SubmitStreaming? ==> e.id in c'.handles.answers && c'.handles.answers[e.id] == [c.tls.value])
  {
    var d := QueueRequest(c, e);
    TlsErrorIsTold(d, c.tls.value);
  }

  lemma TlsErrorIsTold(c: Channel, error: Failure)
    requires Core(c) && c.state == Idle && c.tls == Some(error)
    ensures var c' := c.ConnectIfIdle();
            && c'.state == Shutdown && c'.ShutdownStatus() == error
            && (forall id <- c.waiters.queue :: id in c'.waiters.answers && c'.waiters.answers[id] == [error])
            && (forall id <- c.calls.queue :: id in c'.calls.answers && c'.calls.answers[id] == [error])
            && (forall id <- c.handles.queue :: id in c'.handles.answers && c'.handles.answers[id] == [error])
  {
    DrainIsTold(c.(connects := c.connects + 1, state := Shutdown, terminal := c.tls), error, error);
  }

  // ----- A new streaming call -----

  lemma StreamingOnDecided(c: Channel, id: Id, attempt: Attempt)
    requires Inv(c) && (c.state == Ready || c.state == ConnState.Failed) && id !in c.handles.known
    ensures var c' := Step(c, SubmitStreaming(id, attempt));
            && c'.state == c.state
            && (exists status: Status ::
               && AnsweredWith(c.handles.answers, c'.handles.answers, id, status)
               && (if c.state == ConnState.Failed then status.code == 14 && c'.streaming == c.streaming
                   else if attempt == Opened then
                     status.Ok() && c'.streaming.active == c.streaming.active[c.nextStream := id]
                     && c.nextStream !in c.unary.ever && c.nextStream !in c.streaming.ever
                   else Refusal(attempt, status) && c'.streaming == c.streaming))
  {
    var status := if c.state == ConnState.Failed then CHANNEL_FAILED else attempt.Status();
    NewAnswer(c.handles.answers, id, status);
  }

  // ----- The connection is decided -----

  lemma QueueIsAnswered(l: Ledger, status: Status)
    requires l.Balanced()
    ensures var l' := l.SettleQueue(status);
            && l'.queue == [] && (forall id <- l.queue :: id in l'.answers && l'.answers[id] == [status])
            && (forall id <- l.answers :: l'.answers[id] == l.answers[id])
  {
    forall id <- l.queue ensures id in l.SettleQueue(status).answers && l.SettleQueue(status).answers[id] == [status] {
      assert id in Elements(l.queue);
    }
  }

  /** A call that waited is cancelled, opened, or refused by its attempt. */
  predicate SettledByAttempt(c: Channel, c': Channel, id: Id, attempt: Attempt) {
    if id in c.cancelled then id in c'.calls.answers && |c'.calls.answers[id]| == 1 && c'.calls.answers[id][0].code == 1
    else if attempt == Opened then id in c'.calls.live && id in Calls(c'.unary.active)
    else id in c'.calls.answers && |c'.calls.answers[id]| == 1 && Refusal(attempt, c'.calls.answers[id][0])
  }

  lemma SettleOne(c: Channel, id: Id, attempt: Attempt)
    requires c.calls.InTransit(id) && StreamsOk(c) && c.state == Ready
    ensures SettledByAttempt(c, c.Settle(id, attempt), id, attempt)
    ensures var c' := c.Settle(id, attempt);
            && (forall other <- c.calls.answers :: other in c'.calls.answers && c'.calls.answers[other] == c.calls.answers[other])
            && c.calls.live <= c'.calls.live && Calls(c.unary.active) <= Calls(c'.unary.active)
  {
    if id in c.cancelled {
      FirstAnswer(c.calls.answers, id, CALL_CANCELLED);
    } else if attempt != Opened {
      FirstAnswer(c.calls.answers, id, attempt.Status());
    } else {
      OpenAdds(c.unary, c.nextStream, id);
    }
  }

  lemma OpenAdds(s: Streams, k: StreamId, id: Id)
    requires k !in s.active
    ensures Calls(s.Open(k, id).active) == Calls(s.active) + {id}
  {
    var after := s.active[k := id];
    assert after[k] == id;
    forall other <- Calls(s.active) ensures other in Calls(after) {
      var j: StreamId :| j in s.active && s.active[j] == other;
      assert after[j] == other;
    }
  }

  lemma StaysSettled(c: Channel, c1: Channel, c2: Channel, id: Id, attempt: Attempt)
    requires SettledByAttempt(c, c1, id, attempt)
    requires forall other <- c1.calls.answers :: other in c2.calls.answers && c2.calls.answers[other] == c1.calls.answers[other]
    requires c1.calls.live <= c2.calls.live && Calls(c1.unary.active) <= Calls(c2.unary.active)
    ensures SettledByAttempt(c, c2, id, attempt)
  {}

  /** Every queued call is submitted, in order, each by its own attempt. */
  lemma {:induction false} PendingAreSettled(c: Channel, attempts: Attempts)
    requires c.calls.Balanced() && StreamsOk(c) && c.state == Ready
    ensures var c' := c.SubmitPending(attempts);
            && (forall id <- c.calls.queue :: SettledByAttempt(c, c', id, AttemptOf(attempts, id)))
            && (forall id <- c.calls.answers :: id in c'.calls.answers && c'.calls.answers[id] == c.calls.answers[id])
            && c.calls.live <= c'.calls.live && Calls(c.unary.active) <= Calls(c'.unary.active)
    decreases |c.calls.queue|
  {
    if c.calls.queue != [] {
      var id := c.calls.queue[0];
      ReleaseTransits(c.calls);
      var d := c.(calls := c.calls.Release());
      assert StreamsOk(d);
      var e := d.Settle(id, AttemptOf(attempts, id));
      SettleOk(d, id, AttemptOf(attempts, id));
      SettleOne(d, id, AttemptOf(attempts, id));
      PendingAreSettled(e, attempts);
      StaysSettled(d, e, e.SubmitPending(attempts), id, AttemptOf(attempts, id));
      forall other <- c.calls.queue ensures SettledByAttempt(c, c.SubmitPending(attempts), other, AttemptOf(attempts, other)) {
        assert other == id || other in e.calls.queue;
      }
    }
  }

  /** A streaming call that waited has its stream, or is told what kept it from one. */
  predicate HandedOut(c: Channel, id: Id, attempt: Attempt) {
    && id in c.handles.answers && |c.handles.answers[id]| == 1
    && var status := c.handles.answers[id][0];
       if attempt == Opened then status.code == 0 && id in Calls(c.streaming.active) else Refusal(attempt, status)
  }

  lemma HandOutOne(c: Channel, id: Id, attempt: Attempt)
    requires c.handles.InTransit(id) && c.handles.live == {} && StreamsOk(c) && c.state == Ready
    ensures HandedOut(c.SettleStreaming(id, attempt), id, attempt)
    ensures var c' := c.SettleStreaming(id, attempt);
            && (forall other <- c.handles.answers :: other in c'.handles.answers && c'.handles.answers[other] == c.handles.answers[other])
            && Calls(c.streaming.active) <= Calls(c'.streaming.active)
  {
    if attempt == Opened {
      FirstAnswer(c.handles.answers, id, OK_STATUS);
      OpenAdds(c.streaming, c.nextStream, id);
    } else {
      FirstAnswer(c.handles.answers, id, attempt.Status());
    }
  }

  lemma {:induction false} HandlesAreSettled(c: Channel, attempts: Attempts)
    requires c.handles.Balanced() && c.handles.live == {} && StreamsOk(c) && c.state == Ready
    ensures var c' := c.SubmitGeneric(attempts);
            && (forall id <- c.handles.queue :: HandedOut(c', id, AttemptOf(attempts, id)))
            && (forall id <- c.handles.answers :: id in c'.handles.answers && c'.handles.answers[id] == c.handles.answers[id])
            && Calls(c.streaming.active) <= Calls(c'.streaming.active)
    decreases |c.handles.queue|
  {
    if c.handles.queue != [] {
      var id := c.handles.queue[0];
      ReleaseTransits(c.handles);
      var d := c.(handles := c.handles.Release());
      assert StreamsOk(d);
      var e := d.SettleStreaming(id, AttemptOf(attempts, id));
      SettleStreamingOk(d, id, AttemptOf(attempts, id));
      HandOutOne(d, id, AttemptOf(attempts, id));
      HandlesAreSettled(e, attempts);
      forall other <- c.handles.queue ensures HandedOut(c.SubmitGeneric(attempts), other, AttemptOf(attempts, other)) {
        assert other == id || other in e.handles.queue;
      }
    }
  }

  /**
   When the session is up: every connect waiter is told OK, and every queued unary call is
   submitted; it opens a stream, or is answered by what kept it from it, or CANCELLED.
   Every queued streaming call is handed its stream, or what kept it from one.
  */
  lemma ConnectedSettlesAll(c: Channel, attempts: Attempts)
    requires Inv(c) && c.connects > 0 && c.state != Shutdown
    ensures var c' := Step(c, OnConnect(attempts));
            && c'.state == Ready && c'.session && c'.waiters.queue == [] && c'.calls.queue == [] && c'.handles.queue == []
            && (forall id <- c.waiters.queue :: id in c'.waiters.answers && |c'.waiters.answers[id]| == 1 && c'.waiters.answers[id][0].code == 0)
            && (forall id <- c.calls.queue :: SettledByAttempt(c, c', id, AttemptOf(attempts, id)))
            && (forall id <- c.handles.queue :: HandedOut(c', id, AttemptOf(attempts, id)))
  {
    var d := c.(session := true, connecting := false, state := Ready, waiters := c.waiters.SettleQueue(OK_STATUS));
    QueueIsAnswered(c.waiters, OK_STATUS);
    assert StreamsOk(d);
    SubmitPendingOk(d, attempts);
    PendingAreSettled(d, attempts);
    SubmitGenericOk(d.SubmitPending(attempts), attempts);
    HandlesAreSettled(d.SubmitPending(attempts), attempts);
    var c' := Step(c, OnConnect(attempts));
    assert c'.calls == d.SubmitPending(attempts).calls && c'.unary == d.SubmitPending(attempts).unary;
  }

  /**
   When the connection fails: every waiter and every queued unary call is told why. Queued
   streaming calls run again and find the channel failed.
  */
  lemma FailureIsTold(c: Channel, error: Failure)
    requires Inv(c) && c.connects > 0 && (c.state == Connecting || c.state == ConnState.Failed)
    ensures var c' := Step(c, OnError(error));
            && c'.state == ConnState.Failed && c'.waiters.queue == [] && c'.calls.queue == [] && c'.handles.queue == []
            && (forall id <- c.waiters.queue :: id in c'.waiters.answers && c'.waiters.answers[id] == [error])
            && (forall id <- c.calls.queue :: id in c'.calls.answers && c'.calls.answers[id] == [error])
            && (forall id <- c.handles.queue :: id in c'.handles.answers && |c'.handles.answers[id]| == 1 && c'.handles.answers[id][0].code == 14)
            && c'.calls.live == c.calls.live && c'.unary == c.unary && c'.streaming == c.streaming
  {
    var d := c.(connecting := false, state := ConnState.Failed);
    assert StreamsOk(d);
    DrainIsTold(d, error, CHANNEL_FAILED);
  }

  lemma DrainIsTold(c: Channel, error: Status, told: Status)
    requires Core(c) && !c.Undecided()
    requires (c.state == ConnState.Failed && told == CHANNEL_FAILED) || (c.state == Shutdown && told == c.ShutdownStatus())
    ensures var c' := c.DrainWithStatus(error);
            && c'.state == c.state && c'.terminal == c.terminal
            && c'.waiters.queue == [] && c'.calls.queue == [] && c'.handles.queue == []
            && (forall id <- c.waiters.queue :: id in c'.waiters.answers && c'.waiters.answers[id] == [error])
            && (forall id <- c.calls.queue :: id in c'.calls.answers && c'.calls.answers[id] == [error])
            && (forall id <- c.handles.queue :: id in c'.handles.answers && c'.handles.answers[id] == [told])
            && c'.calls.live == c.calls.live && c'.unary == c.unary && c'.streaming == c.streaming
  {
    DrainOk(c, error);
    QueueIsAnswered(c.waiters, error);
    QueueIsAnswered(c.calls, error);
    HandlesAreTold(c.(waiters := c.waiters.SettleQueue(error), calls := c.calls.SettleQueue(error)), map[], told);
  }

  /** On a channel that has failed or shut down, each queued streaming call is told so. */
  lemma {:induction false} HandlesAreTold(c: Channel, attempts: Attempts, status: Status)
    requires c.handles.Balanced()
    requires (c.state == ConnState.Failed && status == CHANNEL_FAILED) || (c.state == Shutdown && status == c.ShutdownStatus())
    ensures var after := c.SubmitGeneric(attempts).handles.answers;
            && (forall id <- c.handles.queue :: id in after && after[id] == [status])
            && (forall id <- c.handles.answers :: id in after && after[id] == c.handles.answers[id])
    decreases |c.handles.queue|
  {
    if c.handles.queue != [] {
      var id := c.handles.queue[0];
      ReleaseTransits(c.handles);
      var d := c.(handles := c.handles.Release());
      TransitEnds(d.handles, id, status);
      FirstAnswer(d.handles.answers, id, status);
      var e := d.SettleStreaming(id, AttemptOf(attempts, id));
      assert e == d.(handles := d.handles.Settle(id, status));
      HandlesAreTold(e, attempts, status);
      forall other <- c.handles.queue ensures other == id || other in e.handles.queue {}
    }
  }

  /** A ready channel's connection breaks: nothing waits, so nobody is told; calls under way end with their streams. */
  lemma BreakageAnswersNothing(c: Channel, error: Failure)
    requires Inv(c) && c.state == Ready
    ensures Step(c, OnError(error)) == c
  {
    assert Elements([]) == {};
    assert c.waiters.queue == [] && c.calls.queue == [] && c.handles.queue == [];
    assert AnswerAll(c.calls.answers, {}, error) == c.calls.answers;
  }

  /** The attempt is over once the connection is decided, and a shutdown gives up attempt and session. */
  lemma AttemptEnds(c: Channel, e: Event)
    requires Inv(c) && c.connects > 0 && c.state != Shutdown
    requires e.OnConnect? || (e.OnError? && c.state != Ready) || e.DoShutdown?
    ensures !Step(c, e).connecting && (e.DoShutdown? ==> !Step(c, e).session)
  {
    match e
    case OnConnect(attempts) => ConnectedEnds(c, attempts);
    case OnError(error) => FailedEnds(c, error);
    case _ => ShutdownGivesUp(c);
  }

  lemma ConnectedEnds(c: Channel, attempts: Attempts)
    requires Inv(c) && c.connects > 0 && c.state != Shutdown
    ensures !c.OnConnect(attempts).connecting
  {
    OnConnectedOk(c.(session := true), None, attempts);
  }

  lemma FailedEnds(c: Channel, error: Failure)
    requires Inv(c) && c.connects > 0 && c.state != Shutdown && c.state != Ready
    ensures !c.OnError(error).connecting
  {
    OnConnectedOk(c, Some(error), map[]);
  }

  lemma ShutdownGivesUp(c: Channel)
    requires Inv(c) && c.state != Shutdown
    ensures !c.DoShutdown().connecting && !c.DoShutdown().session
  {
    SettleQueueBalances(c.waiters, SHUT_DOWN);
    SettleLiveBalances(c.calls, Calls(c.unary.active), SHUT_DOWN);
    var d := c.CloseDown();
    assert d.calls.live == {};
    assert StreamsOk(d);
    FailAllOk(d, SHUT_DOWN);
  }

  // ----- Calls under way end -----

  /** A call under way is answered once, by the status that ends it: its own completion, or its stream's close. */
  lemma LiveCallEnds(c: Channel, id: Id, status: Failure, k: StreamId)
    requires Inv(c) && id in c.calls.live && k in c.unary.active && c.unary.active[k] == id
    ensures var c' := Step(c, CallDone(id, status));
            id in c'.calls.answers && c'.calls.answers[id] == [status] && id !in c'.calls.live
    ensures var c' := Step(c, StreamClosed(k, status));
            id in c'.calls.answers && c'.calls.answers[id] == [status] && id !in c'.calls.live && k !in c'.unary.active
  {}

  /** A shutdown tells every connect waiter, every unary call and every queued streaming call CANCELLED. */
  lemma ShutdownIsTold(c: Channel)
    requires Inv(c) && c.state != Shutdown
    ensures var c' := Step(c, DoShutdown);
            && c'.state == Shutdown
            && (forall id <- c.waiters.queue :: id in c'.waiters.answers && |c'.waiters.answers[id]| == 1 && c'.waiters.answers[id][0].code == 1)
            && (forall id | id in c.calls.queue || id in c.calls.live ::
                  id in c'.calls.answers && |c'.calls.answers[id]| == 1 && c'.calls.answers[id][0].code == 1)
            && (forall id <- c.handles.queue :: id in c'.handles.answers && |c'.handles.answers[id]| == 1 && c'.handles.answers[id][0].code == 1)
  {
    DoShutdownOk(c);
    var status := SHUT_DOWN;
    QueueIsAnswered(c.waiters, status);
    SettleLiveBalances(c.calls, Calls(c.unary.active), status);
    QueueIsAnswered(c.calls.SettleLive(Calls(c.unary.active), status), status);
    LiveAreAnswered(c, status);
    var d := c.CloseDown();
    FailAllKeepsWaiters(c);
    HandlesAreTold(d.(calls := d.calls.SettleQueue(status)), map[], status);
  }

  lemma LiveAreAnswered(c: Channel, status: Status)
    requires Inv(c)
    ensures var l := c.calls.SettleLive(Calls(c.unary.active), status);
            forall id <- c.calls.live :: id in l.answers && l.answers[id] == [status]
  {}

  lemma FailAllKeepsWaiters(c: Channel)
    requires Inv(c) && c.state != Shutdown
    ensures c.DoShutdown().waiters == c.waiters.SettleQueue(SHUT_DOWN)
    ensures c.DoShutdown().handles == c.CloseDown().(calls := c.CloseDown().calls.SettleQueue(SHUT_DOWN)).SubmitGeneric(map[]).handles
  {
    SettleQueueBalances(c.waiters, SHUT_DOWN);
    SettleLiveBalances(c.calls, Calls(c.unary.active), SHUT_DOWN);
    var d := c.CloseDown();
    assert d.calls.live == {};
    assert StreamsOk(d);
    FailAllOk(d, SHUT_DOWN);
  }

  // ----- Streaming calls under way -----

  /** Exactly the calls in `ids` have been told to fail once more, with `code`. */
  ghost predicate ToldToFail(before: Answers, after: Answers, ids: set<Id>, code: nat) {
    forall id: Id :: if id in ids then |Given(after, id)| == |Given(before, id)| + 1 && Given(before, id) <= Given(after, id)
                                       && Given(after, id)[|Given(before, id)|].code == code
                     else Given(after, id) == Given(before, id)
  }

  lemma AnswerAllTells(a: Answers, ids: set<Id>, status: Status)
    ensures ToldToFail(a, AnswerAll(a, ids, status), ids, status.code)
  {}

  /** A GOAWAY tells the streaming calls it cuts off UNAVAILABLE, and the channel forgets their streams. */
  lemma GoawayTells(c: Channel, last: nat)
    requires Inv(c) && c.connects > 0 && c.state != Shutdown
    ensures var c' := Step(c, OnGoaway(last));
            ToldToFail(c.failures, c'.failures, Above(c.streaming.active, last), 14)
            && c'.streaming.active == Below(c.streaming.active, last)
  {
    CutOffOk(c, last);
    FailAllOk(c.CutOff(last), GoawayStatus(last));
    AnswerAllTells(c.failures, Above(c.streaming.active, last), GoawayStatus(last));
  }

  /** A shutdown tells them all CANCELLED. */
  lemma ShutdownTells(c: Channel)
    requires Inv(c) && c.state != Shutdown
    ensures var c' := Step(c, DoShutdown);
            ToldToFail(c.failures, c'.failures, Calls(c.streaming.active), 1) && c'.streaming.active == map[]
  {
    SettleQueueBalances(c.waiters, SHUT_DOWN);
    SettleLiveBalances(c.calls, Calls(c.unary.active), SHUT_DOWN);
    var d := c.CloseDown();
    assert d.calls.live == {};
    assert StreamsOk(d);
    FailAllOk(d, SHUT_DOWN);
    AnswerAllTells(c.failures, Calls(c.streaming.active), SHUT_DOWN);
  }

  /** And nothing else makes the channel fail a streaming call. */
  lemma NothingElseTells(c: Channel, e: Event)
    requires Inv(c) && !e.OnGoaway? && !e.DoShutdown?
    ensures Step(c, e).failures == c.failures
  {
    if Waits(c, e) {
      var d := QueueRequest(c, e);
      QuietConnect(d);
    } else if c.connects > 0 && c.state != Shutdown && (e.OnConnect? || e.OnError?) {
      QuietSession(c, e);
    } else {
      QuietStep(c, e);
    }
  }

  lemma QuietStep(c: Channel, e: Event)
    requires !e.OnGoaway? && !e.DoShutdown? && !Waits(c, e)
    requires e.OnConnect? || e.OnError? ==> c.connects == 0 || c.state == Shutdown
    ensures Step(c, e).failures == c.failures
  {}

  lemma QuietConnect(c: Channel)
    requires Core(c) && c.Undecided()
    ensures c.ConnectIfIdle().failures == c.failures
  {
    if c.state == Idle && c.tls.Some? {
      DrainOk(c.(connects := c.connects + 1, state := Shutdown, terminal := c.tls), c.tls.value);
    }
  }

  lemma QuietSession(c: Channel, e: Event)
    requires Inv(c) && c.connects > 0 && c.state != Shutdown && (e.OnConnect? || e.OnError?)
    ensures Step(c, e).failures == c.failures
  {
    if e.OnConnect? {
      OnConnectedOk(c.(session := true), None, e.attempts);
    } else if c.state == Ready {
      FailAllOk(c, e.error);
    } else {
      OnConnectedOk(c, Some(e.error), map[]);
    }
  }
}
