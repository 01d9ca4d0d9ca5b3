/**
 When a server answers: the responded, closed and finished flags of the four kinds
 of call, under every order of request data, its end, the deadline, cancellation,
 the handler's actions and the stream's close (src/server/call_state.cc,
 client_streaming_call_state.cc, server_streaming_call_state.cc, bidi_streaming_call_state.cc).
*/
module ServerGate {
  /**
   What a call does to its response: send a head with or without a final status in
   it, hand the trailers to the transport, or wake its generator.
  */
  datatype Op = Head | StatusHead | StatusTrailers | Resume

  datatype Kind = Unary | ClientStreaming | ServerStreaming | Bidi

  /** What a handler's return asks for in calls with one response. */
  datatype Answer = Message | TooLarge | Error

  datatype Event =
    | Start(ok: bool)          // metadata and encoding are acceptable, or not
    | Data(ok: bool)           // a DATA chunk, decoded or refused
    | RequestEnd(ok: bool)     // the half-close, with a complete request or without
    | Deadline
    | Cancel
    | Write(ok: bool)          // the handler writes a message, within the limit or not
    | Finish                   // the handler finishes its writer
    | Return(answer: Answer)   // the handler returns
    | Close
    | Drained                  // the transport finds the generator's data exhausted

  /** `armed`: the response has a generator; `ended`: it has reported its end. */
  datatype Gate = Gate(responded: bool, closed: bool, finished: bool, armed: bool, ended: bool, ops: seq<Op>) {
    function Do(op: Op): Gate {
      this.(ops := ops + [op])
    }

    function SendError(): Gate {
      if responded then this else this.(responded := true).Do(StatusHead)
    }

    /** The head of a response whose data a generator supplies. */
    function SendHeaders(): Gate {
      this.(responded := true, armed := true).Do(Head)
    }

    function SendResponse(answer: Answer): Gate {
      if responded then this else if answer == Message then SendHeaders() else SendError()
    }

    /** RawServerWriterImpl.Finish. */
    function FinishWriter(): Gate {
      if finished then this else this.(finished := true).Do(Resume)
    }

    function WriteMessage(ok: bool): Gate {
      if finished then this else if ok then Do(Resume) else FinishWriter()
    }

    /** OnClose of calls with one response. */
    function CloseResponse(): Gate {
      this.(closed := true, responded := true)
    }

    /** OnClose of calls with a writer. */
    function CloseWriter(): Gate {
      this.(closed := true, finished := true)
    }

    /** The generator reports its end and hands over the trailers; not on a closed stream, and once. */
    function EndGenerator(): Gate {
      if armed && !ended && !closed then this.(ended := true).Do(StatusTrailers) else this
    }
  }

  const OPEN := Gate(false, false, false, false, false, [])

  /** src/server/call_state.cc */
  function UnaryStep(g: Gate, e: Event): Gate {
    match e
    case Start(ok) => if ok then g else g.SendError()
    case Data(ok) => if ok then g else g.SendError()
    case RequestEnd(ok) => if ok then g else g.SendError()
    case Deadline => g.SendError()
    case Cancel => if g.closed then g else g.SendError()
    case Return(answer) => g.SendResponse(answer)
    case Close => if g.closed then g else g.CloseResponse()
    case Drained => g.EndGenerator()
    case _ => g
  }

  /** src/server/client_streaming_call_state.cc: as a unary call, but the request's end goes to the reader. */
  function ClientStreamingStep(g: Gate, e: Event): Gate {
    match e
    case RequestEnd(_) => g
    case _ => UnaryStep(g, e)
  }

  /** src/server/server_streaming_call_state.cc */
  function ServerStreamingStep(g: Gate, e: Event): Gate {
    match e
    case Start(ok) => if ok then g else g.SendError()
    case Data(ok) => if ok then g else g.SendError()
    case RequestEnd(ok) => if g.responded then g else if ok then g.SendHeaders() else g.SendError()
    case Deadline => g.SendError()
    case Cancel => if g.closed || g.finished then g else if g.responded then g.FinishWriter() else g.SendError()
    case Write(ok) => g.WriteMessage(ok)
    case Finish => g.FinishWriter()
    case Return(_) => g.FinishWriter()
    case Close => if g.closed then g else g.CloseWriter()
    case Drained => if g.finished then g.EndGenerator() else g
  }

  /** src/server/bidi_streaming_call_state.cc: the head goes out at once. */
  function BidiStep(g: Gate, e: Event): Gate {
    match e
    case Start(ok) => if g.responded then g else if ok then g.SendHeaders() else g.SendError()
    case Data(ok) => if ok then g else g.FinishWriter()
    case RequestEnd(_) => g
    case Deadline => g.FinishWriter()
    case Cancel => if g.closed || g.finished then g else if g.responded then g.FinishWriter() else g.SendError()
    case Write(ok) => g.WriteMessage(ok)
    case Finish => g.FinishWriter()
    case Return(_) => g.FinishWriter()
    case Close => if g.closed then g else g.CloseWriter()
    case Drained => if g.finished then g.EndGenerator() else g
  }

  function Step(kind: Kind, g: Gate, e: Event): Gate {
    match kind
    case Unary => UnaryStep(g, e)
    case ClientStreaming => ClientStreamingStep(g, e)
    case ServerStreaming => ServerStreamingStep(g, e)
    case Bidi => BidiStep(g, e)
  }

  function RunOf(kind: Kind, events: seq<Event>): Gate {
    if events == [] then OPEN else Step(kind, RunOf(kind, events[..|events| - 1]), events[|events| - 1])
  }

  // ----- At most one head, at most one final status -----

  function Heads(ops: seq<Op>): nat {
    if ops == [] then 0
    else Heads(ops[..|ops| - 1]) + match ops[|ops| - 1] { case Head => 1 case StatusHead => 1 case _ => 0 }
  }

  function Statuses(ops: seq<Op>): nat {
    if ops == [] then 0
    else Statuses(ops[..|ops| - 1]) + match ops[|ops| - 1] { case StatusHead => 1 case StatusTrailers => 1 case _ => 0 }
  }

  lemma CountsAfter(ops: seq<Op>, op: Op)
    ensures Heads(ops + [op]) == Heads(ops) + (if op == Head || op == StatusHead then 1 else 0)
    ensures Statuses(ops + [op]) == Statuses(ops) + (if op == StatusTrailers || op == StatusHead then 1 else 0)
  {
    assert (ops + [op])[..|ops|] == ops;
  }

  /** What the operations sent so far are, given the flags. */
  predicate Consistent(g: Gate) {
    && Heads(g.ops) <= 1
    && (!g.responded ==> Heads(g.ops) == 0)
    && (g.responded && !g.closed ==> Heads(g.ops) == 1)
    && (if g.armed then Heads(g.ops) == 1 && g.responded && Statuses(g.ops) == (if g.ended then 1 else 0)
        else !g.ended && Statuses(g.ops) == Heads(g.ops))
  }

  /** Each of the operations that the events are made of keeps the counts. */
  lemma OperationsKeepConsistent(g: Gate)
    requires Consistent(g)
    ensures Consistent(g.SendError()) && (!g.responded ==> Consistent(g.SendHeaders()))
    ensures Consistent(g.FinishWriter()) && Consistent(g.WriteMessage(true))
    ensures Consistent(g.CloseResponse()) && Consistent(g.CloseWriter())
    ensures Consistent(g.EndGenerator())
  {
    CountsAfter(g.ops, Head);
    CountsAfter(g.ops, StatusHead);
    CountsAfter(g.ops, StatusTrailers);
    CountsAfter(g.ops, Op.Resume);
  }

  lemma StepKeepsConsistent(kind: Kind, g: Gate, e: Event)
    requires Consistent(g)
    ensures Consistent(Step(kind, g, e))
  {
    OperationsKeepConsistent(g);
    StepIsAnOperation(kind, g, e);
  }

  /** A step is one operation or none, and sends a message's head only while nothing was answered. */
  lemma StepIsAnOperation(kind: Kind, g: Gate, e: Event)
    ensures var g' := Step(kind, g, e);
            || g' == g || g' == g.SendError() || (!g.responded && g' == g.SendHeaders())
            || g' == g.FinishWriter() || g' == g.WriteMessage(true)
            || g' == g.CloseResponse() || g' == g.CloseWriter() || g' == g.EndGenerator()
  {}

  /** For all four kinds and every order of events: at most one response head, at most one final status. */
  lemma {:induction false} AnswersOnce(kind: Kind, events: seq<Event>)
    ensures Consistent(RunOf(kind, events))
    ensures Heads(RunOf(kind, events).ops) <= 1 && Statuses(RunOf(kind, events).ops) <= 1
  {
    if events != [] {
      AnswersOnce(kind, events[..|events| - 1]);
      StepKeepsConsistent(kind, RunOf(kind, events[..|events| - 1]), events[|events| - 1]);
    }
  }

  /**
   And, on a stream that is still open, no fewer: when the handler has returned and
   the generator has been drained, exactly one head and one status are out. A call
   with a writer must have reached its handler, that is, responded.
  */
  lemma ReturnIsAnswered(kind: Kind, events: seq<Event>, answer: Answer)
    requires !RunOf(kind, events).closed
    requires kind == Unary || kind == ClientStreaming || RunOf(kind, events).responded
    ensures var g := Step(kind, Step(kind, RunOf(kind, events), Return(answer)), Drained);
            Heads(g.ops) == 1 && Statuses(g.ops) == 1
  {
    AnswersOnce(kind, events);
    DrainedReturn(kind, RunOf(kind, events), answer);
  }

  lemma DrainedReturn(kind: Kind, g: Gate, answer: Answer)
    requires Consistent(g) && !g.closed && (kind == Unary || kind == ClientStreaming || g.responded)
    ensures var g' := Step(kind, Step(kind, g, Return(answer)), Drained);
            Heads(g'.ops) == 1 && Statuses(g'.ops) == 1
  {
    var returned := Step(kind, g, Return(answer));
    StepKeepsConsistent(kind, g, Return(answer));
    StepKeepsConsistent(kind, returned, Drained);
    assert returned.responded && !returned.closed;
    if returned.armed && !returned.ended {
      assert Step(kind, returned, Drained) == returned.EndGenerator();
    } else {
      assert Step(kind, returned, Drained) == returned;
    }
  }

  // ----- Nothing after close -----

  /** The flag that gates a kind's operations once the stream has closed. */
  predicate Sealed(kind: Kind, g: Gate) {
    if kind == Unary || kind == ClientStreaming then g.responded else g.finished
  }

  lemma {:induction false} CloseSeals(kind: Kind, events: seq<Event>)
    requires RunOf(kind, events).closed
    ensures Sealed(kind, RunOf(kind, events))
  {
    if events != [] && RunOf(kind, events[..|events| - 1]).closed {
      CloseSeals(kind, events[..|events| - 1]);
    }
  }

  /**
   A response operation follows the close if and only if the call is server-streaming
   and was never answered, and its request data, its end or its deadline still comes
   in: OnClose of that kind does not set the responded flag. A call starts before it
   can close.
  */
  lemma AfterClose(kind: Kind, events: seq<Event>, e: Event)
    requires RunOf(kind, events).closed && !e.Start?
    ensures var g := RunOf(kind, events);
            Step(kind, g, e).ops != g.ops
            <==> kind == ServerStreaming && !g.responded
                 && (e.Deadline? || e.RequestEnd? || (e.Data? && !e.ok))
  {
    CloseSeals(kind, events);
    var g := RunOf(kind, events);
    forall op ensures g.ops + [op] != g.ops {
      assert |g.ops + [op]| == |g.ops| + 1;
    }
  }

  /** The family, at its shortest: a server-streaming call that closes at once, and then its deadline. */
  lemma DeadlineAfterClose()
    ensures RunOf(ServerStreaming, [Close]).closed && RunOf(ServerStreaming, [Close]).ops == []
    ensures RunOf(ServerStreaming, [Close, Deadline]).ops == [StatusHead]
  {
    assert [Close][..0] == [] && [Close, Deadline][..1] == [Close];
    assert RunOf(ServerStreaming, []) == OPEN;
    assert RunOf(ServerStreaming, [Close]) == OPEN.CloseWriter();
    assert [] + [StatusHead] == [StatusHead];
  }

  // ----- The flags and methods of the program's classes -----

  /** The response gate of ServerCallState and ClientStreamingCallState. */
  class SingleResponseCall {
    var responded: bool
    var closed: bool
    var armed: bool
    var ended: bool
    var ops: seq<Op>  // what was done to the response object

    ghost function State(): Gate
      reads this
    {
      Gate(responded, closed, false, armed, ended, ops)
    }

    constructor ()
      ensures State() == OPEN
    {
      responded, closed, armed, ended, ops := false, false, false, false, [];
    }

    method SendError()
      modifies this
      ensures State() == old(State()).SendError()
    {
      if responded { return; }
      responded := true;
      ops := ops + [StatusHead];
    }

    method SendResponse(answer: Answer)
      modifies this
      ensures State() == old(State()).SendResponse(answer)
    {
      if responded { return; }
      responded := true;
      if answer != Message {
        ops := ops + [StatusHead];
        return;
      }
      ops := ops + [Head];
      armed := true;
    }

    method OnDeadline()
      modifies this
      ensures State() == UnaryStep(old(State()), Deadline) == ClientStreamingStep(old(State()), Deadline)
    {
      if !responded {
        SendError();
      }
    }

    method Cancel()
      modifies this
      ensures State() == UnaryStep(old(State()), Event.Cancel) == ClientStreamingStep(old(State()), Event.Cancel)
    {
      if closed || responded { return; }
      SendError();
    }

    method OnClose()
      modifies this
      ensures State() == UnaryStep(old(State()), Close) == ClientStreamingStep(old(State()), Close)
    {
      if closed { return; }
      closed := true;
      if !responded {
        responded := true;
      }
    }

    /** A chunk of the request, decoded or refused. */
    method OnData(ok: bool)
      modifies this
      ensures State() == UnaryStep(old(State()), Data(ok)) == ClientStreamingStep(old(State()), Data(ok))
    {
      if responded { return; }
      if !ok {
        SendError();
      }
    }

    /** OnRequestEnd of a unary call. */
    method OnRequestEnd(ok: bool)
      modifies this
      ensures State() == UnaryStep(old(State()), RequestEnd(ok))
    {
      if responded { return; }
      if !ok {
        SendError();
      }
    }

    method OnHandlerReturn(answer: Answer)
      modifies this
      ensures State() == UnaryStep(old(State()), Return(answer)) == ClientStreamingStep(old(State()), Return(answer))
    {
      if !responded {
        SendResponse(answer);
      }
    }
  }

  /** The response gate of ServerStreamingCallState and BidiStreamingCallState, with their writer's flag. */
  class WriterCall {
    var responded: bool
    var closed: bool
    var finished: bool
    var armed: bool
    var ended: bool
    var ops: seq<Op>

    ghost function State(): Gate
      reads this
    {
      Gate(responded, closed, finished, armed, ended, ops)
    }

    constructor ()
      ensures State() == OPEN
    {
      responded, closed, finished, armed, ended, ops := false, false, false, false, false, [];
    }

    method SendError()
      modifies this
      ensures State() == old(State()).SendError()
    {
      if responded { return; }
      responded := true;
      ops := ops + [StatusHead];
    }

    method SendHeaders()
      modifies this
      ensures State() == old(State()).SendHeaders()
    {
      responded := true;
      ops := ops + [Head];
      armed := true;
    }

    method FinishWriter()
      modifies this
      ensures State() == old(State()).FinishWriter()
    {
      if finished { return; }
      finished := true;
      ops := ops + [Resume];
    }

    method Cancel()
      modifies this
      ensures State() == ServerStreamingStep(old(State()), Event.Cancel) == BidiStep(old(State()), Event.Cancel)
    {
      if closed || finished { return; }
      if responded {
        FinishWriter();
      } else {
        SendError();
      }
    }

    method OnClose()
      modifies this
      ensures State() == ServerStreamingStep(old(State()), Close) == BidiStep(old(State()), Close)
    {
      if closed { return; }
      closed := true;
      if !finished {
        finished := true;
      }
    }

    /** OnRequestEnd of a server-streaming call. */
    method OnRequestEnd(ok: bool)
      modifies this
      ensures State() == ServerStreamingStep(old(State()), RequestEnd(ok))
    {
      if responded { return; }
      if !ok {
        SendError();
        return;
      }
      SendHeaders();
    }

    /** OnData of a server-streaming call. */
    method OnDataUntilAnswered(ok: bool)
      modifies this
      ensures State() == ServerStreamingStep(old(State()), Data(ok))
    {
      if responded { return; }
      if !ok {
        SendError();
      }
    }

    /** OnData of a bidirectional call. */
    method OnDataAlways(ok: bool)
      modifies this
      ensures State() == BidiStep(old(State()), Data(ok))
    {
      if !ok {
        if !finished {
          FinishWriter();
        }
      }
    }

    method OnServerStreamingDeadline()
      modifies this
      ensures State() == ServerStreamingStep(old(State()), Deadline)
    {
      if !responded {
        SendError();
      }
    }

    method OnBidiDeadline()
      modifies this
      ensures State() == BidiStep(old(State()), Deadline)
    {
      if !finished {
        FinishWriter();
      }
    }

    method OnHandlerReturn(answer: Answer)
      modifies this
      ensures State() == ServerStreamingStep(old(State()), Return(answer)) == BidiStep(old(State()), Return(answer))
    {
      if !finished {
        FinishWriter();
      }
    }
  }
}
