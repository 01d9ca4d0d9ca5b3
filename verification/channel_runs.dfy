/** What every step of the channel keeps, and what holds over all its runs. */
module ChannelRuns {
  import opened Bytes
  import opened Statuses
  import opened Ledgers
  import opened ChannelModel

  /** The tracked streams and the calls under way belong together. */
  ghost predicate StreamsOk(c: Channel) {
    && (forall k <- c.unary.active :: k in c.unary.ever && c.unary.ever[k] == c.unary.active[k])
    && (forall k <- c.unary.ever ::
          k < c.nextStream && (c.unary.ever[k] in c.calls.live || c.unary.ever[k] in c.calls.answers))
    && (forall j, k | j in c.unary.ever && k in c.unary.ever && j != k :: c.unary.ever[j] != c.unary.ever[k])
    && (forall id <- c.calls.live :: id in Calls(c.unary.active))
    && (forall k <- c.streaming.active :: k in c.streaming.ever && c.streaming.ever[k] == c.streaming.active[k])
    && (forall k <- c.streaming.ever :: k < c.nextStream && k !in c.unary.ever)
  }

  ghost predicate Core(c: Channel) {
    && c.waiters.Balanced() && c.waiters.live == {}
    && c.calls.Balanced()
    && c.handles.Balanced() && c.handles.live == {}
    && StreamsOk(c)
  }

  ghost predicate ConnectionOk(c: Channel) {
    && (c.calls.queue != [] || c.handles.queue != [] ==> c.state == Connecting)
    && (c.state == Ready ==> c.session)
    && c.connects <= 1 && (c.connects == 0 ==> c.state == Idle || c.state == Shutdown)
    && (c.state == Idle ==> c.connects == 0)
    && (c.waiters.queue != [] ==> c.state == Connecting || (c.state == ConnState.Failed && c.lowest.Some?))
    && (c.terminal.Some? ==> c.state == Shutdown)
    && (c.state == Shutdown || c.Undecided() ==> c.unary.active == map[] && c.streaming.active == map[] && !c.session)
  }

  ghost predicate Inv(c: Channel) {
    Core(c) && ConnectionOk(c)
  }

  lemma NoStreamsNoCalls(c: Channel)
    requires StreamsOk(c) && c.unary.active == map[]
    ensures c.calls.live == {}
  {
    assert Calls(c.unary.active) == {};
  }

  // ----- Settling what waited -----

  lemma OpenKeepsStreams(c: Channel, id: Id)
    requires StreamsOk(c) && id !in c.calls.live && id !in c.calls.answers
    ensures StreamsOk(c.(calls := c.calls.Begin(id), unary := c.unary.Open(c.nextStream, id), nextStream := c.nextStream + 2))
  {
    var c' := c.(calls := c.calls.Begin(id), unary := c.unary.Open(c.nextStream, id), nextStream := c.nextStream + 2);
    forall x <- c'.calls.live ensures x in Calls(c'.unary.active) {
      if x == id {
        assert c'.unary.active[c.nextStream] == id;
      } else {
        var k: StreamId :| k in c.unary.active && c.unary.active[k] == x;
        assert c'.unary.active[k] == x;
      }
    }
  }

  lemma SettleOk(c: Channel, id: Id, attempt: Attempt)
    requires c.calls.InTransit(id) && StreamsOk(c)
    ensures var c' := c.Settle(id, attempt);
            && c'.calls.Balanced() && StreamsOk(c') && c'.calls.queue == c.calls.queue
            && c' == c.(calls := c'.calls, unary := c'.unary, nextStream := c'.nextStream)
            && (c.state != Ready && !c.Undecided() ==> c'.unary == c.unary && c'.nextStream == c.nextStream)
  {
    if id in c.cancelled {
      AnswerKeepsStreams(c, id, CALL_CANCELLED);
    } else if c.state == Shutdown {
      AnswerKeepsStreams(c, id, c.ShutdownStatus());
    } else if c.state == ConnState.Failed {
      AnswerKeepsStreams(c, id, CHANNEL_FAILED);
    } else if attempt != Opened {
      AnswerKeepsStreams(c, id, attempt.Status());
    } else {
      TransitEnds(c.calls, id, OK_STATUS);
      OpenKeepsStreams(c, id);
    }
  }

  lemma AnswerKeepsStreams(c: Channel, id: Id, status: Status)
    requires c.calls.InTransit(id) && StreamsOk(c)
    ensures c.calls.Settle(id, status).Balanced() && StreamsOk(c.(calls := c.calls.Settle(id, status)))
  {
    TransitEnds(c.calls, id, status);
  }

  lemma {:induction false} SubmitPendingOk(c: Channel, attempts: Attempts)
    requires c.calls.Balanced() && StreamsOk(c)
    ensures var c' := c.SubmitPending(attempts);
            && c'.calls.Balanced() && StreamsOk(c') && c'.calls.queue == []
            && c' == c.(calls := c'.calls, unary := c'.unary, nextStream := c'.nextStream)
    decreases |c.calls.queue|
  {
    if c.calls.queue != [] {
      var id := c.calls.queue[0];
      ReleaseTransits(c.calls);
      var d := c.(calls := c.calls.Release());
      assert StreamsOk(d);
      SettleOk(d, id, AttemptOf(attempts, id));
      SubmitPendingOk(d.Settle(id, AttemptOf(attempts, id)), attempts);
    }
  }

  lemma SettleStreamingOk(c: Channel, id: Id, attempt: Attempt)
    requires c.handles.InTransit(id) && c.handles.live == {} && StreamsOk(c)
    ensures var c' := c.SettleStreaming(id, attempt);
            && c'.handles.Balanced() && c'.handles.live == {} && StreamsOk(c') && c'.handles.queue == c.handles.queue
            && c' == c.(handles := c'.handles, streaming := c'.streaming, nextStream := c'.nextStream)
            && (c.state != Ready && !c.Undecided() ==> c'.streaming == c.streaming && c'.nextStream == c.nextStream)
  {
    forall status ensures c.handles.Settle(id, status).Balanced() {
      TransitEnds(c.handles, id, status);
    }
  }

  lemma {:induction false} SubmitGenericOk(c: Channel, attempts: Attempts)
    requires c.handles.Balanced() && c.handles.live == {} && StreamsOk(c) && !c.Undecided()
    ensures var c' := c.SubmitGeneric(attempts);
            && c'.handles.Balanced() && c'.handles.live == {} && StreamsOk(c') && c'.handles.queue == []
            && c' == c.(handles := c'.handles, streaming := c'.streaming, nextStream := c'.nextStream)
            && (c.state != Ready ==> c'.streaming == c.streaming && c'.nextStream == c.nextStream)
    decreases |c.handles.queue|
  {
    if c.handles.queue != [] {
      var id := c.handles.queue[0];
      ReleaseTransits(c.handles);
      var d := c.(handles := c.handles.Release());
      assert StreamsOk(d);
      SettleStreamingOk(d, id, AttemptOf(attempts, id));
      SubmitGenericOk(d.SettleStreaming(id, AttemptOf(attempts, id)), attempts);
    }
  }

  lemma FailAllOk(c: Channel, status: Status)
    requires Core(c) && !c.Undecided()
    ensures var c' := c.FailAll(status);
            && Core(c') && c'.calls == c.calls.SettleQueue(status) && c'.handles.queue == []
            && c' == c.(calls := c'.calls, handles := c'.handles, streaming := c'.streaming, nextStream := c'.nextStream)
            && (c.state != Ready ==> c'.streaming == c.streaming && c'.nextStream == c.nextStream)
  {
    SettleQueueBalances(c.calls, status);
    var d := c.(calls := c.calls.SettleQueue(status));
    assert StreamsOk(d);
    SubmitGenericOk(d, map[]);
  }

  lemma DrainOk(c: Channel, status: Status)
    requires Core(c) && !c.Undecided()
    ensures var c' := c.DrainWithStatus(status);
            && Core(c') && c'.waiters == c.waiters.SettleQueue(status)
            && c'.calls == c.calls.SettleQueue(status) && c'.handles.queue == []
            && c' == c.(waiters := c'.waiters, calls := c'.calls, handles := c'.handles, streaming := c'.streaming, nextStream := c'.nextStream)
            && (c.state != Ready ==> c'.streaming == c.streaming && c'.nextStream == c.nextStream)
  {
    SettleQueueBalances(c.waiters, status);
    FailAllOk(c.(waiters := c.waiters.SettleQueue(status)), status);
  }

  // ----- Every step -----

  /** A request that meets an undecided channel waits, or meets a TLS error. */
  lemma ConnectIfIdleOk(c: Channel)
    requires Core(c) && c.Undecided() && c.terminal.None? && !c.session
    requires c.connects == (if c.state == Idle then 0 else 1)
    requires c.unary.active == map[] && c.streaming.active == map[]
    ensures var c' := c.ConnectIfIdle();
            && Inv(c')
            && c'.lowest == c.lowest && c'.closed == c.closed && c'.unary == c.unary && c'.streaming == c.streaming
            && c'.nextStream == c.nextStream && c'.cancelled == c.cancelled
            && (c'.state == Connecting || (c'.state == Shutdown && c'.waiters.queue == []))
  {
    if c.state == Idle && c.tls.Some? {
      DrainOk(c.(connects := c.connects + 1, state := Shutdown, terminal := c.tls), c.tls.value);
    }
  }

  /** The event is a new request that meets an undecided channel. */
  predicate Waits(c: Channel, e: Event) {
    && c.Undecided()
    && match e
       case Connect(id) => id !in c.waiters.known
       case SubmitCall(id, _) => id !in c.calls.known && id !in c.cancelled
       case SubmitStreaming(id, _) => id !in c.handles.known
       case _ => false
  }

  /** Such a request is queued, and only then may the channel start to connect. */
  lemma QueueRequest(c: Channel, e: Event) returns (d: Channel)
    requires Inv(c) && Waits(c, e)
    ensures Core(d) && Step(c, e) == d.ConnectIfIdle()
    ensures d == c.(waiters := d.waiters, calls := d.calls, handles := d.handles)
    ensures d.waiters.answers == c.waiters.answers && d.calls.answers == c.calls.answers
    ensures !e.Connect? ==> d.waiters == c.waiters
    ensures e.Connect? ==> d.waiters.queue == c.waiters.queue + [e.id]
    ensures e.SubmitCall? ==> d.calls.queue == c.calls.queue + [e.id]
    ensures e.SubmitStreaming? ==> d.handles.queue == c.handles.queue + [e.id]
  {
    match e
    case Connect(id) =>
      AdmitTransits(c.waiters, id);
      TransitEnds(c.waiters.Admit(id), id, OK_STATUS);
      d := c.(waiters := c.waiters.Admit(id).Wait(id));
    case SubmitCall(id, _) =>
      AdmitTransits(c.calls, id);
      TransitEnds(c.calls.Admit(id), id, OK_STATUS);
      d := c.(calls := c.calls.Admit(id).Wait(id));
    case SubmitStreaming(id, _) =>
      AdmitTransits(c.handles, id);
      TransitEnds(c.handles.Admit(id), id, OK_STATUS);
      d := c.(handles := c.handles.Admit(id).Wait(id));
  }

  lemma ConnectOk(c: Channel, id: Id)
    requires Inv(c) && id !in c.waiters.known && !c.Undecided()
    ensures Inv(c.Connect(id))
  {
    AdmitTransits(c.waiters, id);
    var status := if c.state == Shutdown then c.ShutdownStatus() else if c.state == Ready then OK_STATUS else CHANNEL_FAILED;
    TransitEnds(c.waiters.Admit(id), id, status);
    assert c.Connect(id) == c.(waiters := c.waiters.Admit(id).Settle(id, status));
  }

  lemma SubmitCallOk(c: Channel, id: Id, attempt: Attempt)
    requires Inv(c) && id !in c.calls.known && (id in c.cancelled || !c.Undecided())
    ensures Inv(c.SubmitCall(id, attempt))
  {
    AdmitTransits(c.calls, id);
    var d := c.(calls := c.calls.Admit(id));
    assert StreamsOk(d);
    SettleOk(d, id, attempt);
  }

  lemma SubmitStreamingOk(c: Channel, id: Id, attempt: Attempt)
    requires Inv(c) && id !in c.handles.known && !c.Undecided()
    ensures Inv(c.SubmitStreaming(id, attempt))
  {
    AdmitTransits(c.handles, id);
    var d := c.(handles := c.handles.Admit(id));
    assert StreamsOk(d);
    SettleStreamingOk(d, id, attempt);
  }

  /** The outcome of a connection attempt settles everything that waited for it. */
  lemma OnConnectedOk(c: Channel, error: Option<Failure>, attempts: Attempts)
    requires Core(c) && c.terminal.None? && c.connects == 1 && (error.None? ==> c.session)
    ensures var c' := c.OnConnected(error, attempts);
            && Inv(c')
            && c' == c.(state := if error.Some? then ConnState.Failed else Ready, connecting := false,
                        waiters := c'.waiters, calls := c'.calls, unary := c'.unary,
                        handles := c'.handles, streaming := c'.streaming, nextStream := c'.nextStream)
            && c'.waiters.queue == []
            && (error.Some? ==> c'.unary == c.unary && c'.streaming == c.streaming && c'.nextStream == c.nextStream)
  {
    var d := c.(connecting := false, state := if error.Some? then ConnState.Failed else Ready);
    assert StreamsOk(d);
    if error.Some? {
      DrainOk(d, error.value);
    } else {
      SettleQueueBalances(d.waiters, OK_STATUS);
      var e := d.(waiters := d.waiters.SettleQueue(OK_STATUS));
      SubmitPendingOk(e, attempts);
      SubmitGenericOk(e.SubmitPending(attempts), attempts);
    }
  }

  lemma CutOffOk(c: Channel, last: nat)
    requires Core(c)
    ensures Core(c.CutOff(last))
  {
    var d := c.CutOff(last);
    SettleLiveBalances(c.calls, Above(c.unary.active, last), GoawayStatus(last));
    forall id <- d.calls.live ensures id in Calls(d.unary.active) {
      var k: StreamId :| k in c.unary.active && c.unary.active[k] == id;
      assert k <= last;
      assert d.unary.active[k] == id;
    }
  }

  lemma OnGoawayOk(c: Channel, last: nat)
    requires Inv(c) && c.connects == 1
    ensures Inv(c.OnGoaway(last))
  {
    CutOffOk(c, last);
    if c.state != Shutdown {
      FailAllOk(c.CutOff(last), GoawayStatus(last));
    }
  }

  lemma DoShutdownOk(c: Channel)
    requires Inv(c)
    ensures var c' := c.DoShutdown();
            && Inv(c') && c'.state == Shutdown && c'.waiters.queue == []
            && c'.lowest == c.lowest && c'.closed == c.closed && c'.terminal == c.terminal && c'.nextStream == c.nextStream
            && c'.cancelled == c.cancelled
            && c'.unary.ever == c.unary.ever && c'.streaming.ever == c.streaming.ever
    ensures c.state != Shutdown ==> c.DoShutdown().calls == c.calls.SettleLive(Calls(c.unary.active), SHUT_DOWN).SettleQueue(SHUT_DOWN)
  {
    if c.state != Shutdown {
      SettleQueueBalances(c.waiters, SHUT_DOWN);
      SettleLiveBalances(c.calls, Calls(c.unary.active), SHUT_DOWN);
      var d := c.CloseDown();
      assert d.calls.live == {};
      assert StreamsOk(d);
      FailAllOk(d, SHUT_DOWN);
    }
  }

  lemma CallDoneOk(c: Channel, id: Id, status: Status)
    requires Inv(c)
    ensures Inv(c.CallDone(id, status))
  {
    SettleLiveBalances(c.calls, {id}, status);
  }

  lemma StreamClosedOk(c: Channel, k: StreamId, status: Failure)
    requires Inv(c)
    ensures Inv(c.StreamClosed(k, status))
  {
    var d := c.StreamClosed(k, status);
    if k in c.unary.ever {
      SettleLiveBalances(c.calls, {c.unary.ever[k]}, status);
    }
    forall id <- d.calls.live ensures id in Calls(d.unary.active) {
      var j: StreamId :| j in c.unary.active && c.unary.active[j] == id;
      assert j in d.unary.active && d.unary.active[j] == id;
    }
  }

  lemma StepKeepsInv(c: Channel, e: Event)
    requires Inv(c)
    ensures Inv(Step(c, e))
  {
    if Waits(c, e) {
      var d := QueueRequest(c, e);
      ConnectIfIdleOk(d);
      return;
    }
    match e
    case Connect(id) => if id !in c.waiters.known { ConnectOk(c, id); }
    case SubmitCall(id, attempt) => if id !in c.calls.known { SubmitCallOk(c, id, attempt); }
    case SubmitStreaming(id, attempt) => if id !in c.handles.known { SubmitStreamingOk(c, id, attempt); }
    case UserCancel(id) =>
    case OnConnect(attempts) =>
      if c.connects == 1 && c.state != Shutdown { OnConnectedOk(c.(session := true), None, attempts); }
    case OnError(error) =>
      if c.connects == 1 && c.state != Shutdown {
        if c.state == Ready { FailAllOk(c, error); } else { OnConnectedOk(c, Some(error), map[]); }
      }
    case OnGoaway(last) => if c.connects == 1 { OnGoawayOk(c, last); }
    case DoShutdown => DoShutdownOk(c);
    case CallDone(id, status) => CallDoneOk(c, id, status);
    case StreamClosed(k, failure) => StreamClosedOk(c, k, failure);
  }

  lemma {:induction false} RunKeepsInv(tls: Option<Failure>, events: seq<Event>)
    ensures Inv(RunOf(tls, events))
  {
    if events != [] {
      RunKeepsInv(tls, events[..|events| - 1]);
      StepKeepsInv(RunOf(tls, events[..|events| - 1]), events[|events| - 1]);
    }
  }
}
