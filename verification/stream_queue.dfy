/** The queue between the transport's callbacks and a reading coroutine (src/protocol/stream_queue.cc). */
module StreamQueue {
  import opened Bytes
  import opened Statuses

  /** What a read reports: a message, a clean end, or an error. */
  datatype PopResult = PopResult(status: Status, data: Option<bytes>) {
    predicate Eos() {
      status.Ok() && data.None?
    }
  }

  /** `waiting`: the reader is suspended until the wake-up timer is cancelled. */
  datatype Queue = Queue(buffer: seq<bytes>, eos: bool, error: Option<Status>, waiting: bool) {
    function Push(message: bytes): Queue {
      this.(buffer := buffer + [message], waiting := false)
    }

    function PushAll(messages: seq<bytes>): Queue
      decreases |messages|
    {
      if messages == [] then this else Push(messages[0]).PushAll(messages[1..])
    }

    function SetEos(): Queue {
      this.(eos := true, waiting := false)
    }

    function SetError(status: Status): Queue {
      this.(error := Some(status), waiting := false)
    }

    /** One pass of a running reader: a result, or None and suspension. */
    function Pop(): (Option<PopResult>, Queue) {
      if buffer != [] then (Some(PopResult(OK_STATUS, Some(buffer[0]))), this.(buffer := buffer[1..]))
      else if error.Some? then (Some(PopResult(error.value, None)), this)
      else if eos then (Some(PopResult(OK_STATUS, None)), this)
      else (None, this.(waiting := true))
    }

    /** A suspended reader has nothing to read. */
    predicate NoLostWakeUp() {
      waiting ==> buffer == [] && !eos && error.None?
    }
  }

  const EMPTY := Queue([], false, None, false)

  lemma {:induction false} PushAllAppends(q: Queue, messages: seq<bytes>)
    ensures q.PushAll(messages) ==
              if messages == [] then q else q.(buffer := q.buffer + messages, waiting := false)
    decreases |messages|
  {
    if messages != [] {
      PushAllAppends(q.Push(messages[0]), messages[1..]);
      assert q.buffer + [messages[0]] + messages[1..] == q.buffer + messages;
    }
  }

  // ----- Runs: producer calls and reader passes in any order -----

  datatype Event = Push(message: bytes) | SetEos | SetError(status: Status) | Read

  /** The queue, everything pushed, and every result read, in order. */
  datatype Run = Run(queue: Queue, pushed: seq<bytes>, results: seq<PopResult>)

  function Step(r: Run, e: Event): Run {
    match e
    case Push(m) => Run(r.queue.Push(m), r.pushed + [m], r.results)
    case SetEos => r.(queue := r.queue.SetEos())
    case SetError(s) => r.(queue := r.queue.SetError(s))
    case Read =>
      if r.queue.waiting then r
      else
        var (result, queue) := r.queue.Pop();
        Run(queue, r.pushed, if result.None? then r.results else r.results + [result.value])
  }

  function RunOf(events: seq<Event>): Run {
    if events == [] then Run(EMPTY, [], []) else Step(RunOf(events[..|events| - 1]), events[|events| - 1])
  }

  /** Several messages pushed at once, by one delivery. */
  function PushAll(r: Run, messages: seq<bytes>): Run {
    Run(r.queue.PushAll(messages), r.pushed + messages, r.results)
  }

  /** The messages among the results. */
  function Messages(results: seq<PopResult>): seq<bytes> {
    if results == [] then []
    else
      var last := results[|results| - 1];
      Messages(results[..|results| - 1]) + match last.data { case Some(m) => [m] case None => [] }
  }

  lemma MessagesAppend(results: seq<PopResult>, r: PopResult)
    ensures Messages(results + [r]) == Messages(results) + match r.data { case Some(m) => [m] case None => [] }
  {
    assert (results + [r])[..|results|] == results;
  }

  predicate Fifo(r: Run) {
    Messages(r.results) + r.queue.buffer == r.pushed && r.queue.NoLostWakeUp()
  }

  lemma StepKeepsFifo(r: Run, e: Event)
    requires Fifo(r)
    ensures Fifo(Step(r, e))
  {
    var read, buffer := Messages(r.results), r.queue.buffer;
    match e
    case Push(m) =>
      assert read + (buffer + [m]) == (read + buffer) + [m];
    case Read =>
      if !r.queue.waiting && r.queue.Pop().0.Some? {
        MessagesAppend(r.results, r.queue.Pop().0.value);
        if buffer != [] {
          assert (read + [buffer[0]]) + buffer[1..] == read + buffer;
        }
      }
    case _ =>
  }

  lemma PushAllKeepsFifo(r: Run, messages: seq<bytes>)
    requires Fifo(r)
    ensures Fifo(PushAll(r, messages))
  {
    PushAllAppends(r.queue, messages);
    assert Messages(r.results) + (r.queue.buffer + messages) == r.pushed + messages;
    assert r.pushed + [] == r.pushed;
  }

  /** First in, first out, nothing lost, nothing twice; and no wake-up is lost. */
  lemma {:induction false} QueueIsFifo(events: seq<Event>)
    ensures Fifo(RunOf(events))
  {
    if events != [] {
      QueueIsFifo(events[..|events| - 1]);
      StepKeepsFifo(RunOf(events[..|events| - 1]), events[|events| - 1]);
    }
  }

  /** The end of the stream is reported only once everything pushed has been read, an error before a clean end. */
  lemma EndOnlyAfterDraining(events: seq<Event>)
    requires !RunOf(events).queue.waiting
    ensures var r := RunOf(events);
            var result := r.queue.Pop().0;
            && (result.Some? && result.value.data.None? ==> Messages(r.results) == r.pushed)
            && (result.Some? && result.value.data.None? && r.queue.error.Some? ==> result.value.status == r.queue.error.value)
            && (result.None? <==> Messages(r.results) == r.pushed && !r.queue.eos && r.queue.error.None?)
  {
    QueueIsFifo(events);
  }

  // ----- What the calls of the producer amount to -----

  predicate Ended(events: seq<Event>) {
    events != [] && (events[|events| - 1].SetEos? || Ended(events[..|events| - 1]))
  }

  function LastError(events: seq<Event>): Option<Status> {
    if events == [] then None
    else match events[|events| - 1] { case SetError(s) => Some(s) case _ => LastError(events[..|events| - 1]) }
  }

  function AllPushed(events: seq<Event>): seq<bytes> {
    if events == [] then []
    else AllPushed(events[..|events| - 1]) + match events[|events| - 1] { case Push(m) => [m] case _ => [] }
  }

  /**
   A reader that is scheduled gets the next message pushed; after the last one, the last
   error set, if any, else the end, if it was set; and suspends only if there is none of these.
  */
  lemma NextResult(events: seq<Event>)
    ensures var r := RunOf(events);
            var read, pushed := Messages(r.results), AllPushed(events);
            && read <= pushed
            && r.queue.Pop().0 ==
                 (if |read| < |pushed| then Some(PopResult(OK_STATUS, Some(pushed[|read|])))
                  else if LastError(events).Some? then Some(PopResult(LastError(events).value, None))
                  else if Ended(events) then Some(PopResult(OK_STATUS, None))
                  else None)
            && (r.queue.waiting ==> r.queue.Pop().0.None?)
  {
    QueueIsFifo(events);
    FieldsOfRun(events);
  }

  lemma {:induction false} FieldsOfRun(events: seq<Event>)
    ensures var r := RunOf(events);
            r.pushed == AllPushed(events) && r.queue.eos == Ended(events) && r.queue.error == LastError(events)
  {
    if events != [] {
      FieldsOfRun(events[..|events| - 1]);
    }
  }

  // ----- The order of results -----

  /** All messages first, each reported with OK; then nothing but the terminal. */
  predicate InOrder(results: seq<PopResult>, terminal: PopResult) {
    var read := Messages(results);
    && |read| <= |results|
    && (forall i | 0 <= i < |results| ::
          results[i] == if i < |read| then PopResult(OK_STATUS, Some(read[i])) else terminal)
  }

  /** And once the terminal was reported, no message waits, and the terminal is still there. */
  predicate Orderly(r: Run, terminal: PopResult) {
    && InOrder(r.results, terminal)
    && (|Messages(r.results)| < |r.results| ==> r.queue.buffer == [] && (r.queue.eos || r.queue.error.Some?))
  }

  lemma ReadKeepsOrder(r: Run, terminal: PopResult)
    requires Orderly(r, terminal) && terminal.data.None?
    requires r.queue.buffer == [] && r.queue.Pop().0.Some? ==> r.queue.Pop().0.value == terminal
    ensures Orderly(Step(r, Read), terminal)
    ensures !r.queue.waiting && r.queue.Pop().0.Some? ==> |Step(r, Read).results| == |r.results| + 1
  {
    if !r.queue.waiting && r.queue.Pop().0.Some? {
      MessagesAppend(r.results, r.queue.Pop().0.value);
    }
  }

  class StreamMessageQueue {
    var buffer: seq<bytes>
    var eos: bool
    var error: Option<Status>
    var waiting: bool  // an asynchronous wait on the wake-up timer is pending

    ghost function State(): Queue
      reads this
    {
      Queue(buffer, eos, error, waiting)
    }

    constructor ()
      ensures State() == EMPTY
    {
      buffer, eos, error, waiting := [], false, None, false;
    }

    method Push(message: bytes)
      modifies this
      ensures State() == old(State()).Push(message)
    {
      buffer := buffer + [message];
      Wake();
    }

    method SetEos()
      modifies this
      ensures State() == old(State()).SetEos()
    {
      eos := true;
      Wake();
    }

    method SetError(status: Status)
      modifies this
      ensures State() == old(State()).SetError(status)
    {
      error := Some(status);
      Wake();
    }

    method Wake()
      modifies this`waiting
      ensures !waiting
    {
      waiting := false;
    }

    /** One pass of the reader's loop; None means that it suspended. */
    method Pop() returns (result: Option<PopResult>)
      modifies this
      ensures (result, State()) == old(State()).Pop()
    {
      if buffer != [] {
        var message := buffer[0];
        buffer := buffer[1..];
        return Some(PopResult(OK_STATUS, Some(message)));
      }
      if error.Some? {
        return Some(PopResult(error.value, None));
      }
      if eos {
        return Some(PopResult(OK_STATUS, None));
      }
      waiting := true;
      return None;
    }
  }
}
