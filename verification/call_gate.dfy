/**
 The gate between the channel and the user's completion handler of a unary call
 (UnaryCallCompletion in src/client/channel_impl.cc). The channel's answer and the
 user's cancellation race for it; the first of them is posted to the handler.
*/
module CallGate {
  import opened Bytes
  import opened Statuses
  import opened Ledgers
  import opened ChannelModel
  import opened ChannelRuns
  import opened ChannelTheorems

  /** `posted`: what was posted to the handler. */
  datatype Gate = Gate(completed: bool, posted: seq<Status>) {
    function Complete(status: Status): Gate {
      if completed then this else Gate(true, posted + [status])
    }

    function CompleteAll(news: seq<Status>): Gate
      decreases |news|
    {
      if news == [] then this else Complete(news[0]).CompleteAll(news[1..])
    }
  }

  const OPEN := Gate(false, [])

  /** The channel, and the gate of each call that was told anything. */
  datatype Desk = Desk(channel: Channel, gates: map<Id, Gate>) {
    function GateOf(id: Id): Gate {
      if id in gates then gates[id] else OPEN
    }

    function Posted(id: Id): seq<Status> {
      GateOf(id).posted
    }
  }

  /** The answers that `after` has for a call beyond those of `before`. */
  function News(before: Answers, after: Answers, id: Id): seq<Status> {
    var old', new' := Given(before, id), Given(after, id);
    if |old'| <= |new'| then new'[|old'|..] else []
  }

  /** Every answer of the channel goes through the gate; so does a cancellation, at once and whatever the call waits for. */
  function Step(d: Desk, e: Event): Desk {
    var c := ChannelModel.Step(d.channel, e);
    var told := Desk(c, map id | id in d.gates.Keys + c.calls.answers.Keys ::
                          d.GateOf(id).CompleteAll(News(d.channel.calls.answers, c.calls.answers, id)));
    match e
    case UserCancel(id) => Desk(c, told.gates[id := told.GateOf(id).Complete(CALL_CANCELLED)])
    case _ => told
  }

  function RunOf(tls: Option<Failure>, events: seq<Event>): Desk {
    if events == [] then Desk(NewChannel(tls), map[])
    else Step(RunOf(tls, events[..|events| - 1]), events[|events| - 1])
  }

  lemma {:induction false} ChannelOfRun(tls: Option<Failure>, events: seq<Event>)
    ensures RunOf(tls, events).channel == ChannelModel.RunOf(tls, events)
  {
    if events != [] {
      ChannelOfRun(tls, events[..|events| - 1]);
    }
  }

  // ----- One step -----

  /** Only the user cancels. */
  lemma CancelledOf(c: Channel, e: Event)
    requires Inv(c)
    ensures ChannelModel.Step(c, e).cancelled == if e.UserCancel? then c.cancelled + {e.id} else c.cancelled
  {
    if Waits(c, e) {
      var d := QueueRequest(c, e);
      ConnectIfIdleOk(d);
      return;
    }
    match e
    case OnConnect(attempts) =>
      if c.connects == 1 && c.state != Shutdown { OnConnectedOk(c.(session := true), None, attempts); }
    case OnError(error) =>
      if c.connects == 1 && c.state != Shutdown {
        if c.state == Ready { FailAllOk(c, error); } else { OnConnectedOk(c, Some(error), map[]); }
      }
    case OnGoaway(last) => if c.connects == 1 && c.state != Shutdown { GoawaySettlesCalls(c, last); }
    case DoShutdown => DoShutdownOk(c);
    case _ =>
  }

  /** A call is answered at most once, so the only news is its first answer. */
  lemma NewsOf(c: Channel, e: Event, id: Id)
    requires Inv(c)
    ensures var before, after := c.calls.answers, ChannelModel.Step(c, e).calls.answers;
            && (id in before ==> id in after && after[id] == before[id])
            && News(before, after, id) == (if id in after && id !in before then after[id] else [])
            && (id in after ==> |after[id]| == 1)
  {
    StepKeepsInv(c, e);
    StepExtends(c, e);
  }

  /** What one step does to the gate of a call. */
  lemma GateStep(d: Desk, e: Event, id: Id)
    requires Inv(d.channel)
    ensures var g, before, after := d.GateOf(id), d.channel.calls.answers, ChannelModel.Step(d.channel, e).calls.answers;
            Step(d, e).GateOf(id) ==
              if e == UserCancel(id) then g.Complete(CALL_CANCELLED)
              else g.CompleteAll(if id in before then [] else Given(after, id))
    ensures e.UserCancel? ==> ChannelModel.Step(d.channel, e).calls == d.channel.calls
  {
    NewsOf(d.channel, e, id);
    TellOne(d.GateOf(id), []);
  }

  lemma TellOne(g: Gate, news: seq<Status>)
    ensures news == [] ==> g.CompleteAll(news) == g
    ensures |news| == 1 ==> g.CompleteAll(news) == g.Complete(news[0])
  {
    if |news| == 1 {
      assert news[1..] == [];
    }
  }

  // ----- Every run -----

  /** The handler of a call: posted to once as soon as the channel answered or the user cancelled, with the one's status or the other's. */
  predicate GateOk(g: Gate, answers: Answers, cancelled: set<Id>, id: Id) {
    && (g.completed <==> id in answers || id in cancelled)
    && |g.posted| == (if g.completed then 1 else 0)
    && (g.completed ==>
          (id in answers && g.posted == answers[id]) || (id in cancelled && g.posted == [CALL_CANCELLED]))
  }

  ghost predicate DeskOk(d: Desk) {
    Inv(d.channel) && forall id: Id :: GateOk(d.GateOf(id), d.channel.calls.answers, d.channel.cancelled, id)
  }

  lemma StepKeepsDesk(d: Desk, e: Event)
    requires DeskOk(d)
    ensures DeskOk(Step(d, e))
  {
    StepKeepsInv(d.channel, e);
    CancelledOf(d.channel, e);
    forall id: Id {
      StepKeepsGate(d, e, id);
    }
  }

  lemma StepKeepsGate(d: Desk, e: Event, id: Id)
    requires DeskOk(d)
    requires var c := d.channel;
             ChannelModel.Step(c, e).cancelled == if e.UserCancel? then c.cancelled + {e.id} else c.cancelled
    ensures var c := ChannelModel.Step(d.channel, e);
            GateOk(Step(d, e).GateOf(id), c.calls.answers, c.cancelled, id)
  {
    GateStep(d, e, id);
    NewsOf(d.channel, e, id);
    TellOne(d.GateOf(id), Given(ChannelModel.Step(d.channel, e).calls.answers, id));
    TellOne(d.GateOf(id), []);
  }

  lemma {:induction false} RunKeepsDesk(tls: Option<Failure>, events: seq<Event>)
    ensures DeskOk(RunOf(tls, events))
  {
    if events != [] {
      RunKeepsDesk(tls, events[..|events| - 1]);
      StepKeepsDesk(RunOf(tls, events[..|events| - 1]), events[|events| - 1]);
    } else {
      ChannelRuns.RunKeepsInv(tls, events);
    }
  }

  /** Over all runs: the handler is posted at most once, and exactly once as soon as the channel answered or the user cancelled. */
  lemma HandlerIsPostedOnce(tls: Option<Failure>, events: seq<Event>, id: Id)
    ensures var d := RunOf(tls, events);
            && |d.Posted(id)| <= 1
            && (|d.Posted(id)| == 1 <==> id in d.channel.calls.answers || id in d.channel.cancelled)
  {
    RunKeepsDesk(tls, events);
  }

  /** What was posted first stands, whatever the channel or the user does later. */
  lemma {:induction false} FirstResultStands(tls: Option<Failure>, events: seq<Event>, k: nat, id: Id)
    requires k <= |events| && RunOf(tls, events[..k]).Posted(id) != []
    ensures RunOf(tls, events).Posted(id) == RunOf(tls, events[..k]).Posted(id)
    decreases |events|
  {
    if k < |events| {
      var front := events[..|events| - 1];
      assert front[..k] == events[..k];
      FirstResultStands(tls, front, k, id);
      RunKeepsDesk(tls, front);
      GateStep(RunOf(tls, front), events[|events| - 1], id);
      NewsOf(RunOf(tls, front).channel, events[|events| - 1], id);
      StaysCompleted(RunOf(tls, front).GateOf(id), Given(RunOf(tls, events).channel.calls.answers, id));
    } else {
      assert events[..k] == events;
    }
  }

  lemma {:induction false} StaysCompleted(g: Gate, news: seq<Status>)
    requires g.completed
    ensures g.CompleteAll(news) == g == g.CompleteAll([])
    decreases |news|
  {
    if news != [] {
      StaysCompleted(g, news[1..]);
    }
  }

  /** The first of the two to come is what the handler gets. */
  lemma FirstComesThrough(tls: Option<Failure>, events: seq<Event>, e: Event, id: Id)
    requires RunOf(tls, events).Posted(id) == []
    ensures var d, d' := RunOf(tls, events), Step(RunOf(tls, events), e);
            d'.Posted(id) == if e == UserCancel(id) then [CALL_CANCELLED] else Given(d'.channel.calls.answers, id)
  {
    RunKeepsDesk(tls, events);
    var d := RunOf(tls, events);
    GateStep(d, e, id);
    NewsOf(d.channel, e, id);
    TellOne(d.GateOf(id), Given(Step(d, e).channel.calls.answers, id));
  }

  /**
   Conservation of calls as their users see it. Every call ever submitted is in exactly
   one place. One that the channel has not answered, be it pending or under way, has
   been heard of only if its user cancelled it: a cancelled call may go on waiting, its
   handler already has CANCELLED, and the answer still to come will be dropped. One that
   was answered was heard of once, by that answer or by an earlier cancellation.
  */
  lemma CallsAreAccountedFor(tls: Option<Failure>, events: seq<Event>, id: Id)
    requires id in RunOf(tls, events).channel.calls.known
    ensures var d := RunOf(tls, events);
            var c := d.channel;
            && Count(id in c.calls.queue) + Count(id in c.calls.live) + Count(id in c.calls.answers) == 1
            && (id in c.calls.queue || id in c.calls.live ==>
                  d.Posted(id) == if id in c.cancelled then [CALL_CANCELLED] else [])
            && (id in c.calls.answers ==>
                  d.Posted(id) == c.calls.answers[id] || (id in c.cancelled && d.Posted(id) == [CALL_CANCELLED]))
            && (id in c.calls.answers ==> |d.Posted(id)| == 1)
  {
    ChannelOfRun(tls, events);
    CallsAreConserved(tls, events, id);
    RunKeepsDesk(tls, events);
  }

  /** A call cancelled while pending, and a shutdown that answers it too late. */
  lemma CancelledWhilePending(id: Id, attempt: Attempt)
    ensures var d := RunOf(None, [SubmitCall(id, attempt), UserCancel(id)]);
            d.channel.calls.queue == [id] && id !in d.channel.calls.answers && d.Posted(id) == [CALL_CANCELLED]
    ensures var d := RunOf(None, [SubmitCall(id, attempt), UserCancel(id), DoShutdown]);
            Given(d.channel.calls.answers, id) == [SHUT_DOWN] && d.Posted(id) == [CALL_CANCELLED]
  {
    var e2, e3 := [SubmitCall(id, attempt), UserCancel(id)], [SubmitCall(id, attempt), UserCancel(id), DoShutdown];
    assert e3[..2] == e2;
    ChannelOfRun(None, e2);
    ChannelOfRun(None, e3);
    PendingAndCancelled(id, attempt);
    PendingThenShutDown(id, attempt);
    RunKeepsDesk(None, e2);
    assert GateOk(RunOf(None, e2).GateOf(id), map[], {id}, id);
    FirstResultStands(None, e3, 2, id);
  }

  lemma PendingThenShutDown(id: Id, attempt: Attempt)
    ensures Given(ChannelModel.RunOf(None, [SubmitCall(id, attempt), UserCancel(id), DoShutdown]).calls.answers, id) == [SHUT_DOWN]
  {
    var e2, e3 := [SubmitCall(id, attempt), UserCancel(id)], [SubmitCall(id, attempt), UserCancel(id), DoShutdown];
    assert e3 == e2 + [DoShutdown];
    PendingAndCancelled(id, attempt);
    ShutdownAnswersPending(e2, id);
  }

  lemma PendingAndCancelled(id: Id, attempt: Attempt)
    ensures var c := ChannelModel.RunOf(None, [SubmitCall(id, attempt), UserCancel(id)]);
            c.calls.queue == [id] && c.calls.answers == map[] && c.cancelled == {id} && c.state == Connecting
  {
    var e1, e2 := [SubmitCall(id, attempt)], [SubmitCall(id, attempt), UserCancel(id)];
    assert e1[..0] == [] && e2[..1] == e1;
    assert ChannelModel.RunOf(None, e1[..0]) == NewChannel(None);
    var c1 := ChannelModel.RunOf(None, e1);
    assert c1 == ChannelModel.Step(NewChannel(None), SubmitCall(id, attempt));
    assert c1.calls.queue == [id] && c1.calls.answers == map[] && c1.cancelled == {} && c1.state == Connecting;
    assert ChannelModel.RunOf(None, e2) == c1.(cancelled := {} + {id});
  }

  lemma ShutdownAnswersPending(events: seq<Event>, id: Id)
    requires var c := ChannelModel.RunOf(None, events);
             c.state != Shutdown && c.calls.queue == [id] && c.calls.answers == map[]
    ensures Given(ChannelModel.RunOf(None, events + [DoShutdown]).calls.answers, id) == [SHUT_DOWN]
  {
    var all := events + [DoShutdown];
    assert all[..|all| - 1] == events;
    RunKeepsInv(None, events);
    DoShutdownAnswers(ChannelModel.RunOf(None, events), id);
  }

  lemma DoShutdownAnswers(c: Channel, id: Id)
    requires Inv(c) && c.state != Shutdown && c.calls.queue == [id] && c.calls.answers == map[]
    ensures Given(ChannelModel.Step(c, DoShutdown).calls.answers, id) == [SHUT_DOWN]
  {
    DoShutdownOk(c);
    SettledPending(c.calls, Calls(c.unary.active), SHUT_DOWN, id);
  }

  lemma SettledPending(l: Ledger, ids: set<Id>, status: Status, id: Id)
    requires l.Balanced() && l.queue == [id] && l.answers == map[]
    ensures Given(l.SettleLive(ids, status).SettleQueue(status).answers, id) == [status]
  {
    assert id in Elements(l.queue);
  }

  class UnaryCallCompletion {
    var completed: bool
    var posted: seq<Status>
    var cancelled: bool  // the flag of its UnaryCallControl, which the channel reads

    ghost function State(): Gate
      reads this
    {
      Gate(completed, posted)
    }

    constructor ()
      ensures State() == OPEN && !cancelled
    {
      completed, posted, cancelled := false, [], false;
    }

    method Complete(status: Status)
      modifies this`completed, this`posted
      ensures State() == old(State()).Complete(status)
    {
      if completed { return; }
      completed := true;
      posted := posted + [status];
    }

    method Cancel()
      modifies this
      ensures State() == old(State()).Complete(CALL_CANCELLED) && cancelled
    {
      cancelled := true;
      Complete(CALL_CANCELLED);
    }
  }
}
