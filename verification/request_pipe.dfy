/**
 The request stream of a client-streaming or bidirectional call, from the client's
 Enqueue to the server handler's Read: the strand's posted tasks, the writer and
 its generator, the transport, the frame parser and the reader's queue.

 The transport is any interleaving of the events below. It delivers octets in
 order in chunks of any size, announces the end of the request after them, and
 does not call a generator that deferred, until it is resumed, or that ended.
*/
module RequestPipe {
  import opened Bytes
  import opened Statuses
  import opened Lpm
  import opened Incremental
  import opened SendQueue
  import opened ClientWriter
  import opened Receiving
  import StreamQueue
  import StreamingParser

  datatype Task = Append(message: bytes) | Finish

  /**
   The client. `accepted`: the messages for which Enqueue returned OK; `queued`:
   those of them whose frame reached the writer; `sent`: the octets handed to the
   transport; `whole`: the messages queued when the generator reported the end.
  */
  datatype Sender = Sender(accepted: seq<bytes>, tasks: seq<Task>, queued: seq<bytes>, writer: Writer,
                           sent: bytes, eof: bool, whole: seq<bytes>)

  /**
   The server. `gated`: data is ignored once the call has responded (client-streaming
   calls, src/server/client_streaming_call_state.cc) or not (bidirectional calls).
  */
  datatype Receiver = Receiver(gated: bool, responded: bool, delivered: nat, halfClosed: bool, input: Reception)

  datatype Pipe = Pipe(s: Sender, r: Receiver)

  datatype Event =
    | Enqueue(message: bytes)
    | WritesDone
    | RunTask                    // the strand runs its oldest task
    | Pull(len: nat)             // the transport asks for up to `len` octets
    | Deliver(n: nat)            // the server receives up to `n` octets
    | DeliverEnd                 // the server receives the half-close
    | Read                       // the handler's reader runs
    | Respond                    // the handler returns
    | Abort(status: Failure)     // deadline, cancellation or close

  function Start(lim: Limits, gated: bool): Pipe {
    Pipe(Sender([], [], [], NEW_WRITER, [], false, []), Receiver(gated, false, 0, false, Fresh(lim)))
  }

  function PlainFrame(message: bytes): bytes
    requires |message| <= MAX_PAYLOAD
  {
    Encoding(Frame(0, message))
  }

  function Send(s: Sender, e: Event): Sender
    requires SenderInv(s)
  {
    match e
    case Enqueue(m) =>
      if |m| <= MAX_PAYLOAD then s.(accepted := s.accepted + [m], tasks := s.tasks + [Append(m)]) else s
    case WritesDone => s.(tasks := s.tasks + [Finish])
    case RunTask =>
      if s.tasks == [] then s
      else
        var s' := s.(tasks := s.tasks[1..]);
        (match s.tasks[0]
         case Append(m) =>
           TaskIsEncodable(s);
           s'.(queued := s.queued + [m], writer := s.writer.Append(PlainFrame(m)))
         case Finish => s'.(writer := s.writer.Finish()))
    case Pull(len) =>
      if s.eof || s.writer.deferred then s
      else
        var (pull, writer) := s.writer.Generate(len);
        (match pull
         case Data(octets) => s.(writer := writer, sent := s.sent + octets)
         case Eof => s.(writer := writer, eof := true, whole := s.queued)
         case Deferred => s.(writer := writer))
    case _ => s
  }

  /** OnData of the server's call. */
  function OnData(r: Receiver, chunk: bytes): Receiver
    requires r.input.parser.WellFormed()
  {
    if r.responded && r.gated then r
    else if chunk == [] then r.(input := r.input.Tell(StreamQueue.SetEos))
    else
      var verdict := Resume(r.input.lim, r.input.parser, chunk).verdict;
      var input := r.input.Receive(chunk);
      if verdict == Clean then r.(input := input)
      else r.(responded := true, input := input.Tell(StreamQueue.SetError(StreamingParser.StatusOf(verdict))))
  }

  function Take(r: Receiver, s: Sender, e: Event): Receiver
    requires r.input.parser.WellFormed() && r.delivered <= |s.sent|
  {
    match e
    case Deliver(n) =>
      var end := r.delivered + Min(n, |s.sent| - r.delivered);
      if r.halfClosed || end == r.delivered then r
      else OnData(r, s.sent[r.delivered..end]).(delivered := end)
    case DeliverEnd =>
      if !s.eof || r.delivered < |s.sent| || r.halfClosed then r else OnData(r, []).(halfClosed := true)
    case Read => r.(input := r.input.Tell(StreamQueue.Read))
    case Respond => r.(responded := true)
    case Abort(status) => r.(responded := true, input := r.input.Tell(StreamQueue.SetError(status)))
    case _ => r
  }

  function Step(p: Pipe, e: Event): Pipe
    requires SenderInv(p.s) && p.r.input.parser.WellFormed() && p.r.delivered <= |p.s.sent|
  {
    Pipe(Send(p.s, e), Take(p.r, p.s, e))
  }

  // ----- The sender -----

  function Posted(tasks: seq<Task>): seq<bytes> {
    if tasks == [] then [] else (match tasks[0] case Append(m) => [m] case Finish => []) + Posted(tasks[1..])
  }

  predicate Framable(messages: seq<bytes>)
    ensures Framable(messages) ==> Encodable(Plain(messages))
  {
    forall i | 0 <= i < |messages| :: |messages[i]| <= MAX_PAYLOAD
  }

  /** The octets of messages sent uncompressed. */
  function WireOf(messages: seq<bytes>): bytes
    requires Framable(messages)
  {
    Wire(Plain(messages))
  }

  predicate SenderInv(s: Sender) {
    && s.accepted == s.queued + Posted(s.tasks)
    && Framable(s.accepted) && Framable(s.queued) && Framable(s.whole)
    && s.writer.queue.WellFormed() && s.writer.attached && s.writer.NoLostWakeUp()
    && s.sent + s.writer.queue.Remaining() == WireOf(s.queued)
    && (s.eof ==> s.whole <= s.queued && s.sent == WireOf(s.whole))
  }

  lemma TaskIsEncodable(s: Sender)
    requires SenderInv(s) && s.tasks != [] && s.tasks[0].Append?
    ensures |s.tasks[0].message| <= MAX_PAYLOAD
  {
    var m := s.tasks[0].message;
    assert Posted(s.tasks) == [m] + Posted(s.tasks[1..]);
    assert s.accepted[|s.queued|] == m;
  }

  lemma {:induction false} PostedAppend(tasks: seq<Task>, t: Task)
    ensures Posted(tasks + [t]) == Posted(tasks) + match t { case Append(m) => [m] case Finish => [] }
  {
    if tasks == [] {
      assert Posted([t][1..]) == [];
    } else {
      PostedAppend(tasks[1..], t);
      assert (tasks + [t])[1..] == tasks[1..] + [t];
    }
  }

  lemma WireOfAppend(messages: seq<bytes>, m: bytes)
    requires Framable(messages) && |m| <= MAX_PAYLOAD
    ensures Framable(messages + [m]) && WireOf(messages + [m]) == WireOf(messages) + PlainFrame(m)
  {
    WireAppend(Plain(messages), [Frame(0, m)]);
    assert Plain(messages + [m]) == Plain(messages) + [Frame(0, m)];
    assert [Frame(0, m)][1..] == [] && Wire([Frame(0, m)]) == PlainFrame(m) + [];
  }

  lemma SendKeepsInv(s: Sender, e: Event)
    requires SenderInv(s)
    ensures SenderInv(Send(s, e))
    ensures s.accepted <= Send(s, e).accepted && s.sent <= Send(s, e).sent
    ensures s.eof ==> Send(s, e).eof && Send(s, e).whole == s.whole && Send(s, e).sent == s.sent
  {
    match e
    case Enqueue(m) =>
      PostedAppend(s.tasks, Append(m));
    case WritesDone =>
      PostedAppend(s.tasks, Finish);
    case RunTask =>
      if s.tasks != [] { RunTaskKeepsInv(s); }
    case Pull(len) =>
      if !s.eof && !s.writer.deferred { PullKeepsInv(s, len); }
    case _ =>
  }

  lemma RunTaskKeepsInv(s: Sender)
    requires SenderInv(s) && s.tasks != []
    ensures SenderInv(Send(s, RunTask))
  {
    match s.tasks[0]
    case Append(m) =>
      TaskIsEncodable(s);
      WireOfAppend(s.queued, m);
      PushAppends(s.writer.queue, PlainFrame(m));
      WakeUpsAreKept(s.writer, PlainFrame(m), 0);
      AppendedOctets(s.sent, s.writer.queue.Remaining(), PlainFrame(m));
      assert Posted(s.tasks) == [m] + Posted(s.tasks[1..]);
      assert (s.queued + [m]) + Posted(s.tasks[1..]) == s.accepted;
    case Finish =>
      assert [] + Posted(s.tasks[1..]) == Posted(s.tasks[1..]);
  }

  lemma AppendedOctets(a: bytes, b: bytes, c: bytes)
    ensures a + (b + c) == (a + b) + c
  {}

  lemma PullKeepsInv(s: Sender, len: nat)
    requires SenderInv(s) && !s.eof && !s.writer.deferred
    ensures SenderInv(Send(s, Pull(len)))
  {
    var q := s.writer.queue;
    EmptyMeansSent(q);
    if q.pending == [] {
      assert s.sent + [] == s.sent;
    } else {
      DrainConserves(q, len);
      assert (s.sent + q.Chunk(len)) + q.Drain(len).Remaining() == s.sent + q.Remaining();
    }
  }

  // ----- The receiver -----

  /** Every message of `s` is within the receiver's limit. */
  predicate AllWithin(lim: Limits, s: Sender) {
    forall i | 0 <= i < |s.accepted| :: |s.accepted[i]| <= lim.max
  }

  predicate ReceiverInv(r: Receiver, s: Sender) {
    && r.input.Faithful()
    && r.delivered <= |s.sent|
    && r.input.fed <= s.sent[..r.delivered]
    && (!r.responded || !r.gated ==> r.input.fed == s.sent[..r.delivered])
    && (r.input.verdict != Clean ==> r.responded && r.input.reader.queue.error.Some?)
    && (r.input.reader.queue.error.Some? ==> !r.input.reader.queue.error.value.Ok())
    && (r.halfClosed ==> s.eof && r.delivered == |s.sent|)
    && (r.input.reader.queue.eos ==> r.halfClosed && r.input.fed == s.sent)
  }

  /** A bidirectional call that refused a message: it goes on parsing, but its reader will end with an error. */
  predicate Refused(r: Receiver, s: Sender) {
    && r.input.parser.WellFormed() && StreamQueue.Fifo(r.input.reader)
    && r.delivered <= |s.sent|
    && r.input.verdict != Clean
    && r.input.reader.queue.error.Some? && !r.input.reader.queue.error.value.Ok()
  }

  /** What holds of every receiver, whatever was sent. */
  predicate Sound(r: Receiver, s: Sender) {
    if r.gated || r.input.verdict == Clean then ReceiverInv(r, s) else Refused(r, s)
  }

  /** The octets on their way are a prefix of a framed stream, so what was parsed was sent. */
  lemma FedIsAPrefix(lim: Limits, s: Sender, fed: bytes)
    requires SenderInv(s) && fed <= s.sent
    ensures Parse(lim, fed).messages <= s.queued
    ensures AllWithin(lim, s) ==> Parse(lim, fed).verdict == Clean
    ensures s.eof && fed == s.sent && Parse(lim, fed).verdict == Clean ==> Parse(lim, fed).messages == s.whole
  {
    var frames := Plain(s.queued);
    assert fed <= WireOf(s.queued);
    ParseOfPrefix(lim, frames, fed);
    if AllWithin(lim, s) {
      forall i | 0 <= i < |frames| ensures Acceptable(lim, frames[i]) {
        assert s.accepted[i] == s.queued[i];
      }
    }
    if s.eof {
      ParseOfPrefix(lim, Plain(s.whole), s.sent);
    }
  }

  lemma TakeKeepsInv(r: Receiver, s: Sender, e: Event)
    requires SenderInv(s) && Sound(r, s)
    ensures Sound(Take(r, s, e), s)
  {
    if r.gated || r.input.verdict == Clean {
      TakeKeepsReceiverInv(r, s, e);
    } else {
      TakeKeepsRefused(r, s, e);
    }
  }

  /** Nothing mends a refusal, and nothing breaks the reader's queue. */
  lemma TakeKeepsRefused(r: Receiver, s: Sender, e: Event)
    requires Refused(r, s) && !r.gated
    ensures Refused(Take(r, s, e), s) && !Take(r, s, e).gated
  {
    match e
    case Deliver(n) =>
      var end := WhereItEnds(r, s, n);
      if Take(r, s, Deliver(n)) != r {
        FeedingOnKeepsRefused(r, s.sent[r.delivered..end]);
      }
    case DeliverEnd =>
      StreamQueue.StepKeepsFifo(r.input.reader, StreamQueue.SetEos);
    case Read =>
      StreamQueue.StepKeepsFifo(r.input.reader, StreamQueue.Read);
    case Abort(status) =>
      StreamQueue.StepKeepsFifo(r.input.reader, StreamQueue.SetError(status));
    case _ =>
  }

  lemma FeedingOnKeepsRefused(r: Receiver, chunk: bytes)
    requires r.input.parser.WellFormed() && StreamQueue.Fifo(r.input.reader) && !r.gated && chunk != []
    requires r.input.verdict != Clean
    requires r.input.reader.queue.error.Some? && !r.input.reader.queue.error.value.Ok()
    ensures var q := OnData(r, chunk).input;
            && q.parser.WellFormed() && StreamQueue.Fifo(q.reader) && q.verdict != Clean
            && q.reader.queue.error.Some? && !q.reader.queue.error.value.Ok()
  {
    var o, later := Resume(r.input.lim, r.input.parser, chunk), r.input.Receive(chunk);
    ResumeIsWellFormed(r.input.lim, r.input.parser, chunk);
    StreamQueue.PushAllKeepsFifo(r.input.reader, o.messages);
    StreamQueue.PushAllAppends(r.input.reader.queue, o.messages);
    StreamQueue.StepKeepsFifo(later.reader, StreamQueue.SetError(StreamingParser.StatusOf(o.verdict)));
  }

  lemma TakeKeepsReceiverInv(r: Receiver, s: Sender, e: Event)
    requires SenderInv(s) && ReceiverInv(r, s) && (r.gated || r.input.verdict == Clean)
    ensures Sound(Take(r, s, e), s)
  {
    match e
    case Deliver(n) =>
      DeliverKeepsInv(r, s, n);
    case DeliverEnd =>
      DeliverEndKeepsInv(r, s);
    case Read =>
      ReadKeepsInv(r, s);
    case Abort(status) =>
      AbortKeepsInv(r, s, status);
    case Respond =>
      RespondKeepsInv(r, s);
    case _ =>
  }

  lemma RespondKeepsInv(r: Receiver, s: Sender)
    requires SenderInv(s) && ReceiverInv(r, s)
    ensures ReceiverInv(Take(r, s, Respond), s)
  {}

  lemma ReadKeepsInv(r: Receiver, s: Sender)
    requires SenderInv(s) && ReceiverInv(r, s)
    ensures ReceiverInv(Take(r, s, Read), s)
  {
    TellKeepsFaith(r.input, StreamQueue.Read);
  }

  lemma AbortKeepsInv(r: Receiver, s: Sender, status: Failure)
    requires SenderInv(s) && ReceiverInv(r, s)
    ensures ReceiverInv(Take(r, s, Abort(status)), s)
  {
    TellKeepsFaith(r.input, StreamQueue.SetError(status));
  }

  lemma DeliverEndKeepsInv(r: Receiver, s: Sender)
    requires SenderInv(s) && ReceiverInv(r, s)
    ensures ReceiverInv(Take(r, s, DeliverEnd), s)
  {
    TellKeepsFaith(r.input, StreamQueue.SetEos);
    assert s.sent[..|s.sent|] == s.sent;
  }

  /** What arrives extends the octets fed, and the rest of the receiver follows from what is fed. */
  lemma OctetsKeepInv(r: Receiver, s: Sender, end: nat)
    requires SenderInv(s) && ReceiverInv(r, s) && r.delivered < end <= |s.sent| && !r.halfClosed
    requires r.gated || r.input.verdict == Clean
    ensures ReceiverInv(OnData(r, s.sent[r.delivered..end]).(delivered := end), s)
  {
    var chunk := s.sent[r.delivered..end];
    assert s.sent[..end] == s.sent[..r.delivered] + chunk;
    if !(r.responded && r.gated) {
      ReceiveFromSent(r.input, chunk);
    }
  }

  lemma DeliverKeepsInv(r: Receiver, s: Sender, n: nat)
    requires SenderInv(s) && ReceiverInv(r, s)
    requires r.gated || r.input.verdict == Clean
    ensures ReceiverInv(Take(r, s, Deliver(n)), s)
  {
    var end := WhereItEnds(r, s, n);
    if Take(r, s, Deliver(n)) != r {
      OctetsKeepInv(r, s, end);
    }
  }

  lemma WhereItEnds(r: Receiver, s: Sender, n: nat) returns (end: nat)
    requires r.input.parser.WellFormed() && r.delivered <= |s.sent|
    ensures Take(r, s, Deliver(n)) == r
            || (!r.halfClosed && r.delivered < end <= |s.sent|
                && Take(r, s, Deliver(n)) == OnData(r, s.sent[r.delivered..end]).(delivered := end))
  {
    end := r.delivered + Min(n, |s.sent| - r.delivered);
  }

  /** A chunk leaves the reader's verdict on the stream alone; a refusal is told to it. */
  lemma ReceiveFromSent(input: Reception, chunk: bytes)
    requires input.Faithful() && input.verdict == Clean
    ensures var verdict := Resume(input.lim, input.parser, chunk).verdict;
            var later := input.Receive(chunk);
            && later.Faithful() && later.fed == input.fed + chunk && later.verdict == verdict
            && later.reader.queue.eos == input.reader.queue.eos && later.reader.queue.error == input.reader.queue.error
            && (verdict != Clean ==>
                  var told := later.Tell(StreamQueue.SetError(StreamingParser.StatusOf(verdict)));
                  && told.Faithful() && told.fed == later.fed && told.verdict == verdict
                  && told.reader.queue.eos == later.reader.queue.eos
                  && told.reader.queue.error == Some(StreamingParser.StatusOf(verdict)))
  {
    var o, later := Resume(input.lim, input.parser, chunk), input.Receive(chunk);
    ReceiveKeepsFaith(input, chunk);
    StreamQueue.PushAllAppends(input.reader.queue, o.messages);
    TellKeepsFaith(later, StreamQueue.SetError(StreamingParser.StatusOf(o.verdict)));
  }

  // ----- Whole runs -----

  /** What a step needs of a state; every state of every run has it. */
  predicate CanStep(p: Pipe) {
    SenderInv(p.s) && p.r.input.parser.WellFormed() && p.r.delivered <= |p.s.sent|
  }

  lemma TakeGoesOn(r: Receiver, s: Sender, e: Event)
    requires r.input.parser.WellFormed() && r.delivered <= |s.sent|
    ensures Take(r, s, e).input.parser.WellFormed() && Take(r, s, e).delivered <= |s.sent|
  {
    if e.Deliver? {
      var end := WhereItEnds(r, s, e.n);
      ResumeIsWellFormed(r.input.lim, r.input.parser, if r.delivered < end <= |s.sent| then s.sent[r.delivered..end] else []);
    }
  }

  lemma StepsGoOn(p: Pipe, e: Event)
    requires CanStep(p)
    ensures CanStep(Step(p, e))
  {
    SendKeepsInv(p.s, e);
    TakeGoesOn(p.r, p.s, e);
  }

  /** The state after a history of events. */
  function RunOf(lim: Limits, gated: bool, events: seq<Event>): (p: Pipe)
    ensures CanStep(p)
  {
    if events == [] then Start(lim, gated)
    else
      var before := RunOf(lim, gated, events[..|events| - 1]);
      StepsGoOn(before, events[|events| - 1]);
      Step(before, events[|events| - 1])
  }

  predicate SameSettings(p: Pipe, p': Pipe) {
    p'.r.gated == p.r.gated && p'.r.input.lim == p.r.input.lim
  }

  lemma StepKeepsInv(p: Pipe, e: Event)
    requires SenderInv(p.s) && Sound(p.r, p.s)
    ensures SenderInv(Step(p, e).s) && Sound(Step(p, e).r, Step(p, e).s)
    ensures SameSettings(p, Step(p, e))
  {
    SendKeepsInv(p.s, e);
    TakeKeepsInv(p.r, p.s, e);
    SendKeepsSound(Take(p.r, p.s, e), p.s, e);
    TakeKeepsSettings(p.r, p.s, e);
  }

  lemma SendKeepsSound(r: Receiver, s: Sender, e: Event)
    requires SenderInv(s) && Sound(r, s)
    ensures Sound(r, Send(s, e))
  {
    SendKeepsInv(s, e);
    if r.gated || r.input.verdict == Clean {
      SendKeepsReceiverInv(r, s, e);
    }
  }

  /** What the client does meanwhile disturbs nothing the server has. */
  lemma SendKeepsReceiverInv(r: Receiver, s: Sender, e: Event)
    requires SenderInv(s) && ReceiverInv(r, s)
    ensures ReceiverInv(r, Send(s, e))
  {
    SendKeepsInv(s, e);
    assert s.sent[..r.delivered] == Send(s, e).sent[..r.delivered];
  }

  lemma TakeKeepsSettings(r: Receiver, s: Sender, e: Event)
    requires r.input.parser.WellFormed() && r.delivered <= |s.sent|
    ensures Take(r, s, e).gated == r.gated && Take(r, s, e).input.lim == r.input.lim
  {}

  lemma WithinEarlier(lim: Limits, s: Sender, e: Event)
    requires SenderInv(s)
    ensures AllWithin(lim, Send(s, e)) ==> AllWithin(lim, s)
  {
    SendKeepsInv(s, e);
    forall i | 0 <= i < |s.accepted| ensures s.accepted[i] == Send(s, e).accepted[i] {}
  }

  /** The invariant of every run of either kind of call. */
  lemma {:induction false} RunKeepsInv(lim: Limits, gated: bool, events: seq<Event>)
    ensures var p := RunOf(lim, gated, events);
            SenderInv(p.s) && Sound(p.r, p.s) && p.r.gated == gated && p.r.input.lim == lim
  {
    if events != [] {
      RunKeepsInv(lim, gated, events[..|events| - 1]);
      StepKeepsInv(RunOf(lim, gated, events[..|events| - 1]), events[|events| - 1]);
    }
  }

  /** As long as the client enqueues no message beyond the receiver's limit, nothing is refused. */
  lemma {:induction false} NothingIsRefused(lim: Limits, gated: bool, events: seq<Event>)
    requires AllWithin(lim, RunOf(lim, gated, events).s)
    ensures RunOf(lim, gated, events).r.input.verdict == Clean
  {
    RunKeepsInv(lim, gated, events);
    if events != [] {
      var before, e := RunOf(lim, gated, events[..|events| - 1]), events[|events| - 1];
      RunKeepsInv(lim, gated, events[..|events| - 1]);
      WithinEarlier(lim, before.s, e);
      NothingIsRefused(lim, gated, events[..|events| - 1]);
      CleanStaysClean(before.r, before.s, e);
    }
  }

  lemma CleanStaysClean(r: Receiver, s: Sender, e: Event)
    requires SenderInv(s) && ReceiverInv(r, s) && AllWithin(r.input.lim, s) && r.input.verdict == Clean
    ensures Take(r, s, e).input.verdict == Clean
  {
    if e.Deliver? {
      DeliverKeepsInv(r, s, e.n);
      TakeKeepsSettings(r, s, e);
      var later := Take(r, s, e);
      assert later.input.fed <= s.sent;
      FedIsAPrefix(r.input.lim, s, later.input.fed);
    }
  }

  /**
   The server's handler reads the client's messages, in order, nothing else and
   nothing twice: in a call that stops at its response always, in one that does not
   as long as it has refused nothing.
  */
  lemma ReadsArePrefix(lim: Limits, gated: bool, events: seq<Event>)
    requires gated || RunOf(lim, gated, events).r.input.verdict == Clean
    ensures var p := RunOf(lim, gated, events);
            StreamQueue.Messages(p.r.input.reader.results) <= p.s.queued <= p.s.accepted
  {
    RunKeepsInv(lim, gated, events);
    var p := RunOf(lim, gated, events);
    FedIsAPrefix(lim, p.s, p.r.input.fed);
  }

  /**
   When the reader is about to report the end of the stream, the generator has
   ended, and the handler has read exactly the messages queued by then.
  */
  lemma EndMeansComplete(lim: Limits, gated: bool, events: seq<Event>)
    requires var q := RunOf(lim, gated, events).r.input.reader.queue;
             !q.waiting && q.Pop().0.Some? && q.Pop().0.value.Eos()
    ensures var p := RunOf(lim, gated, events);
            p.s.eof && StreamQueue.Messages(p.r.input.reader.results) == p.s.whole
  {
    RunKeepsInv(lim, gated, events);
    var p := RunOf(lim, gated, events);
    FedIsAPrefix(lim, p.s, p.r.input.fed);
  }

  /** Conversely: once the end has arrived without an error, all of them were read or wait to be. */
  lemma NothingIsLost(lim: Limits, gated: bool, events: seq<Event>)
    requires var q := RunOf(lim, gated, events).r.input.reader.queue; q.eos && q.error.None?
    ensures var p := RunOf(lim, gated, events);
            var reader := p.r.input.reader;
            StreamQueue.Messages(reader.results) + reader.queue.buffer == p.s.whole
  {
    RunKeepsInv(lim, gated, events);
    var p := RunOf(lim, gated, events);
    FedIsAPrefix(lim, p.s, p.r.input.fed);
  }

  /** A suspended reader has nothing to read, a deferred generator nothing to send. */
  lemma NoLostWakeUps(lim: Limits, gated: bool, events: seq<Event>)
    ensures var p := RunOf(lim, gated, events);
            var q := p.r.input.reader.queue;
            && (q.waiting ==> q.buffer == [] && !q.eos && q.error.None?)
            && (p.s.writer.deferred ==> p.s.writer.queue.pending == [] && !p.s.writer.writesDone)
  {
    RunKeepsInv(lim, gated, events);
  }
}
