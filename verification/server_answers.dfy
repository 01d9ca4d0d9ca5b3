/**
 A server call does get its answer: whatever ends it on an open stream, exactly one head
 and one status go out, for the four kinds and over every run.
*/
module ServerAnswers {
  import opened ServerGate

  predicate HasWriter(kind: Kind) {
    kind == ServerStreaming || kind == Bidi
  }

  /** Events that come from a handler with a writer, or, for bidirectional calls, from what Start sets up beside it. */
  predicate NeedsStart(kind: Kind, e: Event) {
    HasWriter(kind) && (e.Write? || e.Finish? || e.Return? || (kind == Bidi && (e.Deadline? || e.Data?)))
  }

  /** Such events come once the call has responded: the handler starts after the head. */
  predicate Orderly(kind: Kind, events: seq<Event>) {
    events == []
    || (var front, e := events[..|events| - 1], events[|events| - 1];
        Orderly(kind, front) && (NeedsStart(kind, e) ==> RunOf(kind, front).responded))
  }

  lemma RunNext(kind: Kind, events: seq<Event>, e: Event)
    ensures RunOf(kind, events + [e]) == Step(kind, RunOf(kind, events), e)
    ensures Orderly(kind, events + [e]) <==> Orderly(kind, events) && (NeedsStart(kind, e) ==> RunOf(kind, events).responded)
  {
    assert (events + [e])[..|events|] == events;
  }

  predicate Inv(kind: Kind, g: Gate) {
    && Consistent(g)
    && (HasWriter(kind) && g.finished ==> g.responded || g.closed)
    && (HasWriter(kind) && g.ended ==> g.finished)
  }

  lemma {:induction false} RunKeepsInv(kind: Kind, events: seq<Event>)
    requires Orderly(kind, events)
    ensures Inv(kind, RunOf(kind, events))
  {
    if events != [] {
      RunKeepsInv(kind, events[..|events| - 1]);
      StepKeepsConsistent(kind, RunOf(kind, events[..|events| - 1]), events[|events| - 1]);
    }
  }

  /**
   What ends a call of a kind in a state: its deadline, a cancellation, a refused start,
   refused data or a refused end where the kind looks at them (server-streaming calls look
   at their request until they have responded), the handler's return, and the handler's
   finishing its writer or writing a message beyond the limit.
  */
  predicate Ends(kind: Kind, g: Gate, e: Event) {
    match e
    case Deadline => true
    case Cancel => true
    case Start(ok) => !ok && !g.responded
    case Data(ok) => !ok && (kind == ServerStreaming ==> !g.responded)
    case RequestEnd(ok) => !ok && (kind == Unary || (kind == ServerStreaming && !g.responded))
    case Write(ok) => !ok && HasWriter(kind)
    case Finish => HasWriter(kind)
    case Return(_) => true
    case _ => false
  }

  /** The deadline of a server-streaming call whose response is under way. */
  predicate LateDeadline(kind: Kind, g: Gate, e: Event) {
    kind == ServerStreaming && e.Deadline? && g.armed && !g.finished
  }

  /**
   On an open stream, whatever ends the call leaves exactly one head and one status out
   once the generator has been drained, except the deadline of a server-streaming call
   whose response is under way: that does nothing. If the call has a writer and has
   responded, everything but that deadline finishes the writer.
  */
  lemma EndIsAnswered(kind: Kind, events: seq<Event>, e: Event)
    requires Orderly(kind, events + [e]) && !RunOf(kind, events).closed && Ends(kind, RunOf(kind, events), e)
    ensures var g, g' := RunOf(kind, events), RunOf(kind, events + [e, Drained]);
            && (Heads(g'.ops) == 1 && Statuses(g'.ops) == 1 <==> !LateDeadline(kind, g, e))
            && (LateDeadline(kind, g, e) ==> g' == g)
            && (HasWriter(kind) && g.responded && (kind == Bidi || !e.Deadline?) ==> g'.finished)
  {
    RunNext(kind, events, e);
    RunNext(kind, events + [e], Drained);
    assert events + [e, Drained] == events + [e] + [Drained];
    RunKeepsInv(kind, events);
    EndThenDrained(kind, RunOf(kind, events), e);
  }

  lemma EndThenDrained(kind: Kind, g: Gate, e: Event)
    requires Inv(kind, g) && !g.closed && Ends(kind, g, e) && (NeedsStart(kind, e) ==> g.responded)
    ensures var g' := Step(kind, Step(kind, g, e), Drained);
            && (Heads(g'.ops) == 1 && Statuses(g'.ops) == 1 <==> !LateDeadline(kind, g, e))
            && (LateDeadline(kind, g, e) ==> g' == g)
            && (HasWriter(kind) && g.responded && (kind == Bidi || !e.Deadline?) ==> g'.finished)
  {
    var h := Step(kind, g, e);
    StepKeepsConsistent(kind, g, e);
    StepKeepsConsistent(kind, h, Drained);
    assert h.responded && !h.closed;
  }

  /** So a server-streaming call whose request is in has no deadline: the handler may run on after it. */
  lemma DeadlineIsIgnored()
    ensures var events := [Start(true), RequestEnd(true), Write(true), Deadline];
            var g := RunOf(ServerStreaming, events + [Drained]);
            && RunOf(ServerStreaming, events) == RunOf(ServerStreaming, events[..3])
            && Orderly(ServerStreaming, events) && Statuses(g.ops) == 0 && !g.finished && !g.closed
  {
    var events := [Start(true), RequestEnd(true), Write(true)];
    assert events == (([] + [Start(true)]) + [RequestEnd(true)]) + [Write(true)];
    RunNext(ServerStreaming, [], Start(true));
    RunNext(ServerStreaming, [] + [Start(true)], RequestEnd(true));
    RunNext(ServerStreaming, [] + [Start(true)] + [RequestEnd(true)], Write(true));
    RunNext(ServerStreaming, events, Deadline);
    assert [Start(true), RequestEnd(true), Write(true), Deadline] == events + [Deadline];
    assert [Start(true), RequestEnd(true), Write(true), Deadline][..3] == events;
    assert RunOf(ServerStreaming, events).responded && RunOf(ServerStreaming, events).armed;
    EndIsAnswered(ServerStreaming, events, Deadline);
    assert events + [Deadline] + [Drained] == events + [Deadline, Drained];
    RunKeepsInv(ServerStreaming, events);
  }

  /** What starts a response with data behind its head, in a call not answered yet. */
  predicate Begins(kind: Kind, e: Event) {
    match kind
    case Bidi => e == Start(true)
    case ServerStreaming => e == RequestEnd(true)
    case _ => e == Return(Message)
  }

  /** The head goes out with the event that begins the response, and no event of the request does more. */
  lemma HeadGoesOut(kind: Kind, events: seq<Event>, e: Event)
    ensures var g, g' := RunOf(kind, events), RunOf(kind, events + [e]);
            && (!g.responded && Begins(kind, e) ==> g'.ops == g.ops + [Head] && g'.responded && g'.armed && g'.finished == g.finished)
            && (!HasWriter(kind) && !g.responded && e.Return? && e.answer != Message ==> g'.ops == g.ops + [StatusHead] && g'.responded)
            && ((e == Start(true) || e == Data(true) || e == RequestEnd(true)) && !Begins(kind, e) ==> g' == g)
  {
    RunNext(kind, events, e);
  }
}
