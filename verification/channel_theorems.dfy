/** What users of a channel may rely on, over every run. */
module ChannelTheorems {
  import opened Bytes
  import opened Statuses
  import opened Ledgers
  import opened ChannelModel
  import opened ChannelRuns

  function Count(b: bool): nat {
    if b then 1 else 0
  }

  /**
   Conservation inside the channel: every unary call ever submitted is in exactly one
   place, pending, under way or answered, and the channel answers it exactly once; calls
   wait only while connecting; a ready channel has a session; there is one connection
   attempt. What the user's handler gets goes through a gate behind that answer.
  */
  lemma CallsAreConserved(tls: Option<Failure>, events: seq<Event>, id: Id)
    ensures var c := RunOf(tls, events);
            && Count(id in c.calls.queue) + Count(id in c.calls.live) + Count(id in c.calls.answers) == Count(id in c.calls.known)
            && (id in c.calls.answers ==> |c.calls.answers[id]| == 1)
            && Distinct(c.calls.queue)
            && (c.calls.queue != [] ==> c.state == Connecting)
            && (c.state == Ready ==> c.session)
            && c.connects <= 1
  {
    RunKeepsInv(tls, events);
    var l := RunOf(tls, events).calls;
    assert id in l.queue <==> id in Elements(l.queue);
  }

  /** The same for connect requests and for the handles of streaming calls. */
  lemma RequestsAreConserved(tls: Option<Failure>, events: seq<Event>, id: Id)
    ensures var c := RunOf(tls, events);
            && Count(id in c.waiters.queue) + Count(id in c.waiters.answers) == Count(id in c.waiters.known)
            && (id in c.waiters.answers ==> |c.waiters.answers[id]| == 1)
            && Count(id in c.handles.queue) + Count(id in c.handles.answers) == Count(id in c.handles.known)
            && (id in c.handles.answers ==> |c.handles.answers[id]| == 1)
            && (c.handles.queue != [] ==> c.state == Connecting)
  {
    RunKeepsInv(tls, events);
    var c := RunOf(tls, events);
    assert id in c.waiters.queue <==> id in Elements(c.waiters.queue);
    assert id in c.handles.queue <==> id in Elements(c.handles.queue);
  }

  // ----- Completions are final -----

  predicate Extends(a: Answers, b: Answers) {
    forall id <- a :: id in b && a[id] <= b[id]
  }

  lemma SettlingExtends(l: Ledger, id: Id, ids: set<Id>, status: Status)
    ensures Extends(l.answers, l.Settle(id, status).answers)
    ensures Extends(l.answers, l.SettleQueue(status).answers)
    ensures Extends(l.answers, l.SettleLive(ids, status).answers)
    ensures Extends(l.answers, l.SettleLive(ids, status).SettleQueue(status).answers)
  {}

  lemma SettleExtends(c: Channel, id: Id, attempt: Attempt)
    ensures Extends(c.calls.answers, c.Settle(id, attempt).calls.answers)
  {
    if c.Settle(id, attempt).calls.answers != c.calls.answers {
      var status := if id in c.cancelled then CALL_CANCELLED
                    else if c.state == Shutdown then c.ShutdownStatus()
                    else if c.state == ConnState.Failed then CHANNEL_FAILED
                    else attempt.Status();
      SettlingExtends(c.calls, id, {}, status);
    }
  }

  lemma ExtendsIsTransitive(a: Answers, b: Answers, c: Answers)
    requires Extends(a, b) && Extends(b, c)
    ensures Extends(a, c)
  {}

  lemma {:induction false} SubmitPendingExtends(c: Channel, attempts: Attempts)
    ensures Extends(c.calls.answers, c.SubmitPending(attempts).calls.answers)
    decreases |c.calls.queue|
  {
    if c.calls.queue != [] {
      var id := c.calls.queue[0];
      var d := c.(calls := c.calls.Release());
      var e := d.Settle(id, AttemptOf(attempts, id));
      SettleExtends(d, id, AttemptOf(attempts, id));
      SubmitPendingExtends(e, attempts);
      ExtendsIsTransitive(c.calls.answers, e.calls.answers, c.SubmitPending(attempts).calls.answers);
    }
  }

  lemma ConnectIfIdleExtends(c: Channel)
    requires Core(c)
    ensures Extends(c.calls.answers, c.ConnectIfIdle().calls.answers)
  {
    if c.state == Idle && c.tls.Some? {
      var d := c.(connects := c.connects + 1, state := Shutdown, terminal := c.tls);
      DrainOk(d, c.tls.value);
      assert c.ConnectIfIdle().calls == c.calls.SettleQueue(c.tls.value);
      SettlingExtends(c.calls, 0, {}, c.tls.value);
    }
  }

  lemma OnConnectedExtends(c: Channel, attempts: Attempts)
    requires Core(c)
    ensures Extends(c.calls.answers, c.OnConnected(None, attempts).calls.answers)
  {
    var d := c.(connecting := false, state := Ready, waiters := c.waiters.SettleQueue(OK_STATUS));
    assert StreamsOk(d);
    SubmitPendingOk(d, attempts);
    SubmitPendingExtends(d, attempts);
    SubmitGenericOk(d.SubmitPending(attempts), attempts);
  }

  lemma ErrorSettlesCalls(c: Channel, error: Failure)
    requires Inv(c) && c.state != Shutdown
    ensures c.OnError(error).calls == c.calls.SettleQueue(error)
  {
    if c.state == Ready {
      FailAllOk(c, error);
    } else {
      var d := c.(connecting := false, state := ConnState.Failed);
      assert StreamsOk(d);
      DrainOk(d, error);
    }
  }

  /** A GOAWAY completes what waits and what is under way above its stream id, and nothing else. */
  lemma GoawaySettlesCalls(c: Channel, last: nat)
    requires Inv(c) && c.state != Shutdown
    ensures var c' := c.OnGoaway(last);
            && c'.calls == c.calls.SettleLive(Above(c.unary.active, last), GoawayStatus(last)).SettleQueue(GoawayStatus(last))
            && c'.state == ConnState.Failed && c'.unary == c.unary.UpTo(last) && c'.streaming == c.streaming.UpTo(last)
            && c'.waiters == c.waiters && c'.closed == c.closed
            && c'.lowest == Some(if c.lowest.Some? && c.lowest.value < last then c.lowest.value else last)
            && c'.nextStream == c.nextStream && c'.cancelled == c.cancelled
  {
    CutOffOk(c, last);
    FailAllOk(c.CutOff(last), GoawayStatus(last));
  }

  lemma SessionExtends(c: Channel, e: Event)
    requires Inv(c) && (e.OnConnect? || e.OnError? || e.OnGoaway?) && c.connects > 0 && c.state != Shutdown
    ensures Extends(c.calls.answers, Step(c, e).calls.answers)
  {
    match e
    case OnConnect(attempts) =>
      OnConnectedExtends(c.(session := true), attempts);
    case OnError(error) =>
      ErrorSettlesCalls(c, error);
      SettlingExtends(c.calls, 0, {}, error);
    case OnGoaway(last) =>
      GoawaySettlesCalls(c, last);
      SettlingExtends(c.calls, 0, Above(c.unary.active, last), GoawayStatus(last));
  }

  lemma StepExtends(c: Channel, e: Event)
    requires Inv(c)
    ensures Extends(c.calls.answers, Step(c, e).calls.answers)
  {
    if Waits(c, e) {
      var d := QueueRequest(c, e);
      ConnectIfIdleExtends(d);
    } else if (e.OnConnect? || e.OnError? || e.OnGoaway?) && c.connects > 0 && c.state != Shutdown {
      SessionExtends(c, e);
    } else {
      match e
      case SubmitCall(id, attempt) => if id !in c.calls.known { SettleExtends(c.(calls := c.calls.Admit(id)), id, attempt); }
      case DoShutdown =>
        DoShutdownOk(c);
        SettlingExtends(c.calls, 0, Calls(c.unary.active), SHUT_DOWN);
      case CallDone(id, status) => SettlingExtends(c.calls, 0, {id}, status);
      case StreamClosed(k, failure) => if k in c.unary.ever { SettlingExtends(c.calls, 0, {c.unary.ever[k]}, failure); }
      case _ =>
    }
  }

  /** The channel's answer to a unary call, once given, stands: it is never given again nor with another status. */
  lemma {:induction false} CompletionsAreFinal(tls: Option<Failure>, events: seq<Event>, k: nat)
    requires k <= |events|
    ensures var early, late := RunOf(tls, events[..k]).calls.answers, RunOf(tls, events).calls.answers;
            forall id <- early :: id in late && late[id] == early[id]
    decreases |events|
  {
    if k < |events| {
      var front := events[..|events| - 1];
      assert front[..k] == events[..k];
      CompletionsAreFinal(tls, front, k);
      RunKeepsInv(tls, front);
      RunKeepsInv(tls, events);
      StepExtends(RunOf(tls, front), events[|events| - 1]);
    } else {
      assert events[..k] == events;
    }
  }

  // ----- Connect requests and GOAWAY -----

  predicate WaitersOnlyWhileConnecting(c: Channel) {
    c.waiters.queue != [] ==> c.state == Connecting
  }

  /** A GOAWAY that arrives before the connection is announced, with somebody waiting for it. */
  predicate StrandsWaiters(c: Channel, e: Event) {
    e.OnGoaway? && c.state == Connecting && c.waiters.queue != []
  }

  /** Of all steps only a GOAWAY received while connecting leaves waiters behind. */
  lemma OnlyEarlyGoawayStrandsWaiters(c: Channel, e: Event)
    requires Inv(c) && WaitersOnlyWhileConnecting(c)
    ensures WaitersOnlyWhileConnecting(Step(c, e)) <==> !StrandsWaiters(c, e)
  {
    if Waits(c, e) {
      var d := QueueRequest(c, e);
      ConnectIfIdleOk(d);
      return;
    }
    match e
    case OnGoaway(last) =>
      if c.connects > 0 && c.state != Shutdown { GoawaySettlesCalls(c, last); }
    case OnConnect(attempts) =>
      if c.connects > 0 && c.state != Shutdown { OnConnectedOk(c.(session := true), None, attempts); }
    case OnError(error) =>
      if c.connects > 0 && c.state != Shutdown {
        if c.state == Ready { FailAllOk(c, error); } else { OnConnectedOk(c, Some(error), map[]); }
      }
    case DoShutdown => DoShutdownOk(c);
    case _ =>
  }

  /** The transport has announced the connection that was attempted. */
  predicate Announced(tls: Option<Failure>, events: seq<Event>) {
    events != []
    && (Announced(tls, events[..|events| - 1])
        || (events[|events| - 1].OnConnect? && RunOf(tls, events[..|events| - 1]).connects > 0))
  }

  /** A GOAWAY is received only on a connection that was announced. */
  predicate GoawaysAreAnnounced(tls: Option<Failure>, events: seq<Event>) {
    events == []
    || (GoawaysAreAnnounced(tls, events[..|events| - 1])
        && (events[|events| - 1].OnGoaway? ==> Announced(tls, events[..|events| - 1])))
  }

  lemma DecidedStays(c: Channel, e: Event)
    requires Inv(c)
    ensures !c.Undecided() ==> !Step(c, e).Undecided()
    ensures e.OnConnect? && c.connects > 0 ==> !Step(c, e).Undecided()
  {
    match e
    case OnConnect(attempts) =>
      if c.connects > 0 && c.state != Shutdown { OnConnectedOk(c.(session := true), None, attempts); }
    case OnError(error) =>
      if c.connects > 0 && c.state != Shutdown {
        if c.state == Ready { FailAllOk(c, error); } else { OnConnectedOk(c, Some(error), map[]); }
      }
    case OnGoaway(last) => if c.connects > 0 && c.state != Shutdown { GoawaySettlesCalls(c, last); }
    case DoShutdown => DoShutdownOk(c);
    case _ =>
  }

  lemma {:induction false} AnnouncedIsDecided(tls: Option<Failure>, events: seq<Event>)
    requires Announced(tls, events)
    ensures !RunOf(tls, events).Undecided()
  {
    var front := events[..|events| - 1];
    if Announced(tls, front) {
      AnnouncedIsDecided(tls, front);
    }
    RunKeepsInv(tls, front);
    DecidedStays(RunOf(tls, front), events[|events| - 1]);
  }

  /** Over all runs in which connections are announced before a GOAWAY on them, connect requests wait only while the channel connects. */
  lemma {:induction false} WaitersAreNotStranded(tls: Option<Failure>, events: seq<Event>)
    requires GoawaysAreAnnounced(tls, events)
    ensures WaitersOnlyWhileConnecting(RunOf(tls, events))
  {
    if events != [] {
      var front, e := events[..|events| - 1], events[|events| - 1];
      WaitersAreNotStranded(tls, front);
      RunKeepsInv(tls, front);
      if e.OnGoaway? {
        AnnouncedIsDecided(tls, front);
      }
      OnlyEarlyGoawayStrandsWaiters(RunOf(tls, front), e);
    }
  }

  /** Without that order a waiter could be left behind in a failed channel. */
  lemma UnannouncedGoawayStrands(id: Id, last: nat)
    ensures var c := RunOf(None, [Connect(id), OnGoaway(last)]);
            c.state == ConnState.Failed && c.waiters.queue == [id]
  {
    var e1, e2 := [Connect(id)], [Connect(id), OnGoaway(last)];
    assert e1[..0] == [] && e2[..1] == e1;
    assert RunOf(None, e1[..0]) == NewChannel(None);
    var c1 := RunOf(None, e1);
    assert c1 == Step(NewChannel(None), Connect(id));
    assert c1.waiters.queue == [id] && c1.state == Connecting && c1.connects == 1;
    RunKeepsInv(None, e1);
    GoawaySettlesCalls(c1, last);
    assert RunOf(None, e2) == Step(c1, OnGoaway(last));
  }

  // ----- Shutdown -----

  /** What a shut-down channel answers to a unary call. */
  function AnswerAfterShutdown(c: Channel, id: Id): Status {
    if id in c.cancelled then CALL_CANCELLED else c.ShutdownStatus()
  }

  ghost predicate StaysShutDown(c: Channel, c': Channel) {
    c'.state == Shutdown && c'.ShutdownStatus() == c.ShutdownStatus()
  }

  /** A new unary call is answered at once with the shutdown status, or with its cancellation. */
  lemma CallAfterShutdown(c: Channel, id: Id, attempt: Attempt)
    requires Inv(c) && c.state == Shutdown && id !in c.calls.known
    ensures var c' := Step(c, SubmitCall(id, attempt));
            && StaysShutDown(c, c') && c'.waiters == c.waiters && c'.handles == c.handles
            && c'.calls.answers == c.calls.answers[id := [AnswerAfterShutdown(c, id)]]
  {
    FirstAnswer(c.calls.answers, id, AnswerAfterShutdown(c, id));
  }

  lemma ConnectAfterShutdown(c: Channel, id: Id)
    requires Inv(c) && c.state == Shutdown && id !in c.waiters.known
    ensures var c' := Step(c, Connect(id));
            && StaysShutDown(c, c') && c'.calls == c.calls && c'.handles == c.handles
            && c'.waiters.answers == c.waiters.answers[id := [c.ShutdownStatus()]]
  {
    FirstAnswer(c.waiters.answers, id, c.ShutdownStatus());
  }

  /** So is a new streaming call. */
  lemma StreamingAfterShutdown(c: Channel, id: Id, attempt: Attempt)
    requires Inv(c) && c.state == Shutdown && id !in c.handles.known
    ensures var c' := Step(c, SubmitStreaming(id, attempt));
            && StaysShutDown(c, c') && c'.calls == c.calls && c'.waiters == c.waiters
            && c'.handles.answers == c.handles.answers[id := [c.ShutdownStatus()]]
  {
    FirstAnswer(c.handles.answers, id, c.ShutdownStatus());
  }

  /** No other step leaves the shut-down state or answers anything. */
  lemma ShutdownStep(c: Channel, e: Event)
    requires Inv(c) && c.state == Shutdown
    requires e.SubmitCall? ==> e.id in c.calls.known
    requires e.Connect? ==> e.id in c.waiters.known
    requires e.SubmitStreaming? ==> e.id in c.handles.known
    ensures var c' := Step(c, e);
            StaysShutDown(c, c') && c'.calls == c.calls && c'.waiters == c.waiters && c'.handles == c.handles
  {
    NoStreamsNoCalls(c);
    match e
    case CallDone(id, status) => NothingToSettle(c.calls, {id}, status);
    case StreamClosed(k, failure) => if k in c.unary.ever { NothingToSettle(c.calls, {c.unary.ever[k]}, failure); }
    case _ =>
  }

  lemma FirstAnswer(a: Answers, id: Id, status: Status)
    requires id !in a
    ensures Answer(a, id, status) == a[id := [status]]
  {
    assert Given(a, id) + [status] == [status];
  }

  lemma NothingToSettle(l: Ledger, ids: set<Id>, status: Status)
    requires l.live == {}
    ensures l.SettleLive(ids, status) == l
  {
    assert ids * l.live == {};
  }

  /** In a shut-down channel nothing waits and nothing is under way. */
  lemma ShutdownIsTotal(c: Channel)
    requires Inv(c) && c.state == Shutdown
    ensures c.calls.queue == [] && c.calls.live == {} && c.calls.answers.Keys == c.calls.known
    ensures c.waiters.queue == [] && c.waiters.answers.Keys == c.waiters.known
    ensures c.handles.queue == [] && c.handles.answers.Keys == c.handles.known
    ensures c.unary.active == map[] && c.streaming.active == map[]
  {
    NoStreamsNoCalls(c);
    assert Elements([]) == {};
  }

  /** Earlier answers stand, and each new one is one of `statuses`, alone. */
  ghost predicate OnlyAdds(early: Answers, late: Answers, statuses: set<Status>) {
    && (forall id <- early :: id in late && late[id] == early[id])
    && (forall id <- late.Keys - early.Keys :: |late[id]| == 1 && late[id][0] in statuses)
  }

  /** The answers that a shut-down channel may have added to those it had. */
  ghost predicate OnlyShutdownAnswers(early: Channel, late: Channel) {
    && OnlyAdds(early.calls.answers, late.calls.answers, {early.ShutdownStatus(), CALL_CANCELLED})
    && OnlyAdds(early.waiters.answers, late.waiters.answers, {early.ShutdownStatus()})
    && OnlyAdds(early.handles.answers, late.handles.answers, {early.ShutdownStatus()})
  }

  lemma OneStepShutDown(c: Channel, e: Event)
    requires Inv(c) && c.state == Shutdown
    ensures StaysShutDown(c, Step(c, e)) && OnlyShutdownAnswers(c, Step(c, e))
  {
    if e.SubmitCall? && e.id !in c.calls.known {
      CallAfterShutdown(c, e.id, e.attempt);
    } else if e.Connect? && e.id !in c.waiters.known {
      ConnectAfterShutdown(c, e.id);
    } else if e.SubmitStreaming? && e.id !in c.handles.known {
      StreamingAfterShutdown(c, e.id, e.attempt);
    } else {
      ShutdownStep(c, e);
    }
  }

  lemma ShutdownAnswersAdd(a: Channel, b: Channel, c: Channel)
    requires a.ShutdownStatus() == b.ShutdownStatus()
    requires OnlyShutdownAnswers(a, b) && OnlyShutdownAnswers(b, c)
    ensures OnlyShutdownAnswers(a, c)
  {}

  /**
   Shutdown, by request or by a TLS error, is for ever: all queues and stream maps
   stay empty, every call has completed, what was answered before stands, and each later
   call or connect request gets the same status (a unary call its user had cancelled: that).
  */
  lemma {:induction false} ShutdownIsForEver(tls: Option<Failure>, events: seq<Event>, k: nat)
    requires k <= |events| && RunOf(tls, events[..k]).state == Shutdown
    ensures var early, late := RunOf(tls, events[..k]), RunOf(tls, events);
            && late.state == Shutdown && late.ShutdownStatus() == early.ShutdownStatus()
            && late.calls.queue == [] && late.waiters.queue == [] && late.handles.queue == []
            && late.unary.active == map[] && late.streaming.active == map[]
            && late.calls.answers.Keys == late.calls.known && late.waiters.answers.Keys == late.waiters.known
            && late.handles.answers.Keys == late.handles.known
            && OnlyShutdownAnswers(early, late)
    decreases |events|
  {
    RunKeepsInv(tls, events);
    if k < |events| {
      var front := events[..|events| - 1];
      assert front[..k] == events[..k];
      ShutdownIsForEver(tls, front, k);
      RunKeepsInv(tls, front);
      OneStepShutDown(RunOf(tls, front), events[|events| - 1]);
      ShutdownAnswersAdd(RunOf(tls, events[..k]), RunOf(tls, front), RunOf(tls, events));
    } else {
      assert events[..k] == events;
    }
    ShutdownIsTotal(RunOf(tls, events));
  }

  // ----- GOAWAY -----

  /** Of the streams ever opened, the tracked ones are those not closed and not cut off. */
  ghost predicate Partitioned(s: Streams, closed: set<StreamId>, lowest: Option<nat>) {
    forall k <- s.ever :: k in s.active <==> k !in closed && (lowest.Some? ==> k <= lowest.value)
  }

  ghost predicate PartitionOk(c: Channel) {
    && (c.lowest.Some? ==> c.state == ConnState.Failed || c.state == Shutdown)
    && (forall k <- c.closed :: k < c.nextStream)
    && (c.state != Shutdown ==>
          Partitioned(c.unary, c.closed, c.lowest) && Partitioned(c.streaming, c.closed, c.lowest))
  }

  lemma {:induction false} SubmitPendingPartitions(c: Channel, attempts: Attempts)
    requires PartitionOk(c)
    ensures PartitionOk(c.SubmitPending(attempts))
    ensures c.SubmitPending(attempts).state == c.state && c.SubmitPending(attempts).lowest == c.lowest
    decreases |c.calls.queue|
  {
    if c.calls.queue != [] {
      var id := c.calls.queue[0];
      var d := c.(calls := c.calls.Release());
      SubmitPendingPartitions(d.Settle(id, AttemptOf(attempts, id)), attempts);
    }
  }

  lemma {:induction false} SubmitGenericPartitions(c: Channel, attempts: Attempts)
    requires PartitionOk(c)
    ensures PartitionOk(c.SubmitGeneric(attempts))
    decreases |c.handles.queue|
  {
    if c.handles.queue != [] {
      var id := c.handles.queue[0];
      var d := c.(handles := c.handles.Release());
      SubmitGenericPartitions(d.SettleStreaming(id, AttemptOf(attempts, id)), attempts);
    }
  }

  /** The transport announces a connection at most once, and before it can receive a GOAWAY on it. */
  predicate LateConnect(c: Channel, e: Event) {
    e.OnConnect? && c.lowest.Some?
  }

  lemma ConnectPartitions(c: Channel, attempts: Attempts)
    requires PartitionOk(c) && c.lowest.None? && c.state != Shutdown
    ensures PartitionOk(c.OnConnect(attempts))
  {
    var d := c.(session := true, connecting := false, state := Ready, waiters := c.waiters.SettleQueue(OK_STATUS));
    SubmitPendingPartitions(d, attempts);
    SubmitGenericPartitions(d.SubmitPending(attempts), attempts);
  }

  lemma ErrorPartitions(c: Channel, error: Failure)
    requires Inv(c) && PartitionOk(c) && c.connects > 0 && c.state != Shutdown
    ensures PartitionOk(c.OnError(error))
  {
    if c.state == Ready {
      FailAllOk(c, error);
      assert c.OnError(error).handles == c.handles;
    } else {
      OnConnectedOk(c, Some(error), map[]);
    }
  }

  lemma GoawayPartitions(c: Channel, last: nat)
    requires Inv(c) && PartitionOk(c) && c.state != Shutdown
    ensures PartitionOk(c.OnGoaway(last))
  {
    GoawaySettlesCalls(c, last);
    assert c.OnGoaway(last).unary.ever == c.unary.ever && c.OnGoaway(last).streaming.ever == c.streaming.ever;
  }

  lemma SessionStepPartitions(c: Channel, e: Event)
    requires Inv(c) && PartitionOk(c) && !LateConnect(c, e)
    requires (e.OnConnect? || e.OnError? || e.OnGoaway?) && c.connects > 0 && c.state != Shutdown
    ensures PartitionOk(Step(c, e))
  {
    match e
    case OnConnect(attempts) =>
      ConnectPartitions(c, attempts);
    case OnError(error) =>
      ErrorPartitions(c, error);
    case OnGoaway(last) =>
      GoawayPartitions(c, last);
  }

  lemma StepPartitions(c: Channel, e: Event)
    requires Inv(c) && PartitionOk(c) && !LateConnect(c, e)
    ensures PartitionOk(Step(c, e))
  {
    if Waits(c, e) {
      var d := QueueRequest(c, e);
      ConnectIfIdleOk(d);
    } else if (e.OnConnect? || e.OnError? || e.OnGoaway?) && c.connects > 0 && c.state != Shutdown {
      SessionStepPartitions(c, e);
    } else if e.DoShutdown? {
      DoShutdownOk(c);
    }
  }

  /**
   Section 6.8 of RFC 7540: after any sequence of GOAWAYs the tracked streams of
   either kind are those at most the lowest last_stream_id, less those that closed.
  */
  lemma {:induction false} GoawayPartition(tls: Option<Failure>, events: seq<Event>)
    requires forall i | 0 <= i < |events| :: !LateConnect(RunOf(tls, events[..i]), events[i])
    ensures PartitionOk(RunOf(tls, events))
  {
    if events != [] {
      var front := events[..|events| - 1];
      forall i | 0 <= i < |front| ensures !LateConnect(RunOf(tls, front[..i]), front[i]) {
        assert front[..i] == events[..i];
      }
      GoawayPartition(tls, front);
      RunKeepsInv(tls, front);
      StepPartitions(RunOf(tls, front), events[|events| - 1]);
    }
  }

  /** Each call under way above the stream id completes with UNAVAILABLE; the others are left alone. */
  lemma GoawayCompletesWhatItCutsOff(c: Channel, last: nat, k: StreamId)
    requires Inv(c) && c.connects > 0 && c.state != Shutdown && k in c.unary.active && c.unary.active[k] in c.calls.live
    ensures var id, c' := c.unary.active[k], Step(c, OnGoaway(last));
            if k > last then k !in c'.unary.active && id in c'.calls.answers && c'.calls.answers[id] == [GoawayStatus(last)]
            else k in c'.unary.active && id in c'.calls.live && id !in c'.calls.answers
  {
    var id, above, status := c.unary.active[k], Above(c.unary.active, last), GoawayStatus(last);
    GoawaySettlesCalls(c, last);
    assert id in above <==> k > last;
    SettledLive(c.calls, above, status, id);
  }

  lemma SettledLive(l: Ledger, ids: set<Id>, status: Status, id: Id)
    requires l.Balanced() && id in l.live
    ensures var l' := l.SettleLive(ids, status).SettleQueue(status);
            if id in ids then id in l'.answers && l'.answers[id] == [status] else id in l'.live && id !in l'.answers
  {
    assert id !in Elements(l.queue);
  }

  /** And no stream opens any more. */
  lemma NothingOpensAfterGoaway(c: Channel, e: Event)
    requires Inv(c) && PartitionOk(c) && c.lowest.Some? && !LateConnect(c, e)
    ensures Step(c, e).unary.ever == c.unary.ever && Step(c, e).streaming.ever == c.streaming.ever
    ensures Step(c, e).lowest.Some?
  {
    if c.connects > 0 && c.state != Shutdown && e.OnError? {
      OnConnectedOk(c, Some(e.error), map[]);
    } else if c.connects > 0 && c.state != Shutdown && e.OnGoaway? {
      GoawaySettlesCalls(c, e.last);
    } else if e.DoShutdown? {
      DoShutdownOk(c);
    } else if e.SubmitCall? || e.SubmitStreaming? {
      RequestOpensNothing(c, e);
    }
  }

  lemma RequestOpensNothing(c: Channel, e: Event)
    requires (e.SubmitCall? || e.SubmitStreaming?) && (c.state == ConnState.Failed || c.state == Shutdown)
    ensures var c' := Step(c, e);
            c'.unary == c.unary && c'.streaming == c.streaming && c'.lowest == c.lowest
  {}
}
