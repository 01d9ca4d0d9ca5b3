/**
 The response stream of a server-streaming or bidirectional call, from the server
 handler's Write and Finish to the client's Read and final status.

 The transport is any interleaving of the events below. It delivers octets in
 order in chunks of any size and the trailers after them; it does not call a
 generator that deferred, until it is resumed, or that ended; and it carries
 nothing more for a side on which the stream has closed.
*/
module ResponsePipe {
  import opened Bytes
  import opened Statuses
  import opened Lpm
  import opened Incremental
  import opened SendQueue
  import opened ServerWriter
  import opened Metadata
  import opened Receiving
  import opened ClientStream
  import R = RequestPipe
  import StreamQueue

  /**
   The server. `written`: the messages whose Write returned OK; `finishedWith`: the
   status of the first Finish on the open stream; `trailersSent`: the header blocks
   handed to write_trailer, in order.
  */
  datatype Server = Server(written: seq<bytes>, finishedWith: Option<Status>, writer: Writer, closed: bool,
                           sent: bytes, trailersSent: seq<seq<Entry>>)

  /** The client's end: octets received, whether trailers have, whether the stream closed here. */
  datatype Receiver = Receiver(delivered: nat, trailersIn: bool, streamClosed: bool, call: Client)

  datatype Pipe = Pipe(s: Server, r: Receiver)

  datatype Event =
    | Write(message: bytes)
    | Finish(status: Status)         // by the handler's return, the deadline, a cancellation or a refused request
    | ServerClose                    // the server's on_close
    | Pull(len: nat)
    | Deliver(n: nat)
    | DeliverTrailers
    | StreamClose(error: nat)
    | Fail(failure: Failure)         // the client's deadline, cancellation or GOAWAY
    | RunPosted                      // the client's executor runs a posted failure
    | Read

  function Start(maxResponse: nat, maxReceive: nat): Pipe {
    Pipe(Server([], None, Writer(maxResponse, NOTHING, false, [], false), false, [], []),
         Receiver(0, false, false, NewClient(maxReceive)))
  }

  function Ended(s: Server): bool {
    s.trailersSent != []
  }

  function Send(s: Server, e: Event): Server
    requires s.writer.queue.WellFormed()
  {
    match e
    case Write(m) =>
      var (status, writer) := s.writer.Write(m);
      Server(if status.Ok() then s.written + [m] else s.written,
             if writer.finished && !s.writer.finished then Some(ServerWriter.TOO_LARGE) else s.finishedWith,
             writer, s.closed, s.sent, s.trailersSent)
    case Finish(status) =>
      s.(finishedWith := if s.writer.finished then s.finishedWith else Some(status),
         writer := s.writer.Finish(status))
    case ServerClose => s.(closed := true, writer := s.writer.Close())
    case Pull(len) =>
      if s.closed || Ended(s) || s.writer.deferred then s
      else
        var (pull, writer) := s.writer.Generate(len);
        (match pull
         case Data(octets) => s.(writer := writer, sent := s.sent + octets)
         case Eof(trailers) => s.(writer := writer, trailersSent := s.trailersSent + [trailers])
         case Deferred => s.(writer := writer))
    case _ => s
  }

  function Take(r: Receiver, s: Server, e: Event): Receiver
    requires r.call.input.parser.WellFormed() && r.delivered <= |s.sent|
  {
    match e
    case Deliver(n) =>
      var end := r.delivered + Min(n, |s.sent| - r.delivered);
      if r.streamClosed then r else r.(call := r.call.OnData(s.sent[r.delivered..end]), delivered := end)
    case DeliverTrailers =>
      if r.streamClosed || r.trailersIn || !Ended(s) || r.delivered < |s.sent| then r
      else r.(trailersIn := true, call := r.call.OnTrailers(s.trailersSent[0]))
    case StreamClose(error) =>
      if r.streamClosed then r else r.(streamClosed := true, call := r.call.OnStreamClose(error))
    case Fail(status) => r.(call := r.call.Fail(status))
    case RunPosted => r.(call := r.call.RunPosted())
    case Read => r.(call := r.call.(input := r.call.input.Tell(StreamQueue.Read)))
    case _ => r
  }

  // ----- The server -----

  predicate ServerInv(s: Server) {
    && R.Framable(s.written) && (forall i | 0 <= i < |s.written| :: |s.written[i]| <= s.writer.maxResponseSize)
    && s.writer.queue.WellFormed() && (s.closed || s.writer.NoLostWakeUp())
    && s.sent + s.writer.queue.Remaining() == R.WireOf(s.written)
    && (if s.writer.finished then s.finishedWith.Some? || s.closed else s.finishedWith.None? && s.writer.trailers == [])
    && (s.finishedWith.Some? ==> s.writer.finished && s.writer.trailers == Trailers(s.finishedWith.value, [], []))
    && (Ended(s) ==> s.finishedWith.Some? && s.trailersSent == [s.writer.trailers] && s.sent == R.WireOf(s.written))
  }

  lemma SendKeepsInv(s: Server, e: Event)
    requires ServerInv(s)
    ensures ServerInv(Send(s, e))
    ensures s.written <= Send(s, e).written && s.sent <= Send(s, e).sent
    ensures s.finishedWith.Some? ==> Send(s, e).finishedWith == s.finishedWith && Send(s, e).written == s.written
    ensures Ended(s) ==> Send(s, e).trailersSent == s.trailersSent && Send(s, e).sent == s.sent
  {
    match e
    case Write(m) =>
      WriteKeepsInv(s, m);
    case Pull(len) =>
      PullKeepsInv(s, len);
    case _ =>
  }

  lemma WriteKeepsInv(s: Server, m: bytes)
    requires ServerInv(s)
    ensures ServerInv(Send(s, Write(m)))
  {
    if s.writer.Write(m).0.Ok() {
      R.WireOfAppend(s.written, m);
      PushAppends(s.writer.queue, R.PlainFrame(m));
      R.AppendedOctets(s.sent, s.writer.queue.Remaining(), R.PlainFrame(m));
    }
  }

  lemma PullKeepsInv(s: Server, len: nat)
    requires ServerInv(s)
    ensures ServerInv(Send(s, Pull(len)))
  {
    if !s.closed && !Ended(s) && !s.writer.deferred {
      var q := s.writer.queue;
      EmptyMeansSent(q);
      if q.pending == [] {
        assert s.sent + [] == s.sent;
      } else {
        DrainConserves(q, len);
        R.AppendedOctets(s.sent, q.Chunk(len), q.Drain(len).Remaining());
      }
    }
  }

  // ----- The client -----

  /** The status that the trailers carry, once they are out. */
  function ServerStatus(s: Server): Status
    requires s.finishedWith.Some?
  {
    s.finishedWith.value
  }

  predicate OutcomeInv(c: Client, s: Server)
    requires c.trailersDone ==> s.finishedWith.Some?
  {
    var q := c.input.reader.queue;
    && (c.posted.Some? ==> c.posted == c.failed)
    && (c.failed.Some? ==> c.closed && !c.failed.value.Ok())
    && (c.closed && c.failed.None? ==> c.trailersDone)
    && q.eos == (c.trailersDone && ServerStatus(s).Ok())
    && (if c.failed.Some? && c.posted.None? then c.final == c.failed && q.error == c.failed
        else if c.trailersDone then
          c.final == Some(ServerStatus(s)) && q.error == (if ServerStatus(s).Ok() then None else Some(ServerStatus(s)))
        else c.final.None? && q.error.None?)
  }

  predicate ReceiverInv(r: Receiver, s: Server) {
    var c := r.call;
    && c.input.Faithful()
    && r.delivered <= |s.sent|
    && c.input.fed <= s.sent[..r.delivered]
    && (!c.closed ==> c.input.fed == s.sent[..r.delivered] && c.input.verdict == Clean)
    && (r.trailersIn ==> Ended(s) && r.delivered == |s.sent|)
    && (c.trailersDone ==> r.trailersIn && Ended(s) && s.finishedWith.Some? && c.input.fed == s.sent && c.input.verdict == Clean)
    && (r.trailersIn && !c.closed ==> c.trailersDone)
    && (r.streamClosed ==> c.closed)
    && OutcomeInv(c, s)
  }

  lemma TakeKeepsInv(r: Receiver, s: Server, e: Event)
    requires ServerInv(s) && ReceiverInv(r, s)
    ensures ReceiverInv(Take(r, s, e), s)
  {
    match e
    case Deliver(n) =>
      DeliverKeepsInv(r, s, n);
    case DeliverTrailers =>
      TrailersKeepInv(r, s);
    case StreamClose(error) =>
      CloseKeepsInv(r, s, error);
    case Fail(status) =>
      FailKeepsInv(r, s, status);
    case RunPosted =>
      PostedKeepsInv(r, s);
    case Read =>
      ReadKeepsInv(r, s);
    case _ =>
  }

  lemma DeliverKeepsInv(r: Receiver, s: Server, n: nat)
    requires ServerInv(s) && ReceiverInv(r, s)
    ensures ReceiverInv(Take(r, s, Deliver(n)), s)
  {
    OctetsKeepInv(r, s, r.delivered + Min(n, |s.sent| - r.delivered));
  }

  lemma OctetsKeepInv(r: Receiver, s: Server, end: nat)
    requires ServerInv(s) && ReceiverInv(r, s) && r.delivered <= end <= |s.sent|
    ensures ReceiverInv(r.(call := r.call.OnData(s.sent[r.delivered..end]), delivered := end), s)
  {
    var chunk, input := s.sent[r.delivered..end], r.call.input;
    assert s.sent[..end] == s.sent[..r.delivered] + chunk;
    if !r.call.closed && chunk != [] {
      ReceiveKeepsFaith(input, chunk);
      StreamQueue.PushAllAppends(input.reader.queue, Resume(input.lim, input.parser, chunk).messages);
    }
  }

  lemma TrailersKeepInv(r: Receiver, s: Server)
    requires ServerInv(s) && ReceiverInv(r, s)
    ensures ReceiverInv(Take(r, s, DeliverTrailers), s)
  {
    if !(r.streamClosed || r.trailersIn || !Ended(s) || r.delivered < |s.sent|) {
      var status := ServerStatus(s);
      StatusRoundTrip(status, [], []);
      assert s.sent[..|s.sent|] == s.sent;
      TellKeepsFaith(r.call.input, if status.Ok() then StreamQueue.SetEos else StreamQueue.SetError(status));
    }
  }

  lemma CloseKeepsInv(r: Receiver, s: Server, error: nat)
    requires ServerInv(s) && ReceiverInv(r, s)
    ensures ReceiverInv(Take(r, s, StreamClose(error)), s)
  {}

  lemma FailKeepsInv(r: Receiver, s: Server, status: Failure)
    requires ServerInv(s) && ReceiverInv(r, s)
    ensures ReceiverInv(Take(r, s, Fail(status)), s)
  {}

  lemma PostedKeepsInv(r: Receiver, s: Server)
    requires ServerInv(s) && ReceiverInv(r, s)
    ensures ReceiverInv(Take(r, s, RunPosted), s)
  {
    if r.call.posted.Some? {
      TellKeepsFaith(r.call.input, StreamQueue.SetError(r.call.posted.value));
    }
  }

  lemma ReadKeepsInv(r: Receiver, s: Server)
    requires ServerInv(s) && ReceiverInv(r, s)
    ensures ReceiverInv(Take(r, s, Read), s)
  {
    TellKeepsFaith(r.call.input, StreamQueue.Read);
  }

  /** Later events on the server's side disturb nothing the client has. */
  lemma SendKeepsReceiverInv(r: Receiver, s: Server, e: Event)
    requires ServerInv(s) && ReceiverInv(r, s)
    ensures ReceiverInv(r, Send(s, e))
  {
    SendKeepsInv(s, e);
    assert Send(s, e).sent[..r.delivered] == s.sent[..r.delivered];
  }

  // ----- Whole runs -----

  predicate Inv(p: Pipe) {
    ServerInv(p.s) && ReceiverInv(p.r, p.s)
  }

  function Step(p: Pipe, e: Event): Pipe
    requires Inv(p)
  {
    Pipe(Send(p.s, e), Take(p.r, p.s, e))
  }

  lemma StepKeepsInv(p: Pipe, e: Event)
    requires Inv(p)
    ensures Inv(Step(p, e))
  {
    TakeKeepsInv(p.r, p.s, e);
    SendKeepsInv(p.s, e);
    SendKeepsReceiverInv(Take(p.r, p.s, e), p.s, e);
  }

  function RunOf(maxResponse: nat, maxReceive: nat, events: seq<Event>): (p: Pipe)
    ensures Inv(p)
  {
    if events == [] then Start(maxResponse, maxReceive)
    else
      var before := RunOf(maxResponse, maxReceive, events[..|events| - 1]);
      StepKeepsInv(before, events[|events| - 1]);
      Step(before, events[|events| - 1])
  }

  /** Trailers go out at most once, after every octet of every accepted message, with the first Finish's status. */
  lemma TrailersComeLast(maxResponse: nat, maxReceive: nat, events: seq<Event>)
    ensures var s := RunOf(maxResponse, maxReceive, events).s;
            && |s.trailersSent| <= 1
            && (s.trailersSent != [] ==>
                  s.sent == R.WireOf(s.written) && s.finishedWith.Some?
                  && TrailerStatus(s.trailersSent[0]) == s.finishedWith.value)
  {
    var s := RunOf(maxResponse, maxReceive, events).s;
    if s.trailersSent != [] {
      StatusRoundTrip(s.finishedWith.value, [], []);
    }
  }

  /** The client reads the server's messages, in order, nothing else and nothing twice. */
  lemma ReadsArePrefix(maxResponse: nat, maxReceive: nat, events: seq<Event>)
    ensures var p := RunOf(maxResponse, maxReceive, events);
            StreamQueue.Messages(p.r.call.input.reader.results) <= p.s.written
  {
    var p := RunOf(maxResponse, maxReceive, events);
    FedIsAPrefix(p.r.call.input.lim, p.s, p.r.call.input.fed);
  }

  lemma FedIsAPrefix(lim: Limits, s: Server, fed: bytes)
    requires ServerInv(s) && fed <= s.sent
    ensures Parse(lim, fed).messages <= s.written
    ensures fed == R.WireOf(s.written) && Parse(lim, fed).verdict == Clean ==> Parse(lim, fed).messages == s.written
    ensures s.writer.maxResponseSize <= lim.max && !lim.strict ==> Parse(lim, fed).verdict == Clean
  {
    assert fed <= R.WireOf(s.written);
    ParseOfPrefix(lim, Plain(s.written), fed);
  }

  /**
   Unless the client failed the call itself, an end of stream or an error that its
   reader is about to report is the server's status, and all messages were read.
  */
  lemma EndMeansComplete(maxResponse: nat, maxReceive: nat, events: seq<Event>)
    requires var c := RunOf(maxResponse, maxReceive, events).r.call;
             var q := c.input.reader.queue;
             c.failed.None? && !q.waiting && q.Pop().0.Some? && q.Pop().0.value.data.None?
    ensures var p := RunOf(maxResponse, maxReceive, events);
            var reader := p.r.call.input.reader;
            && p.s.finishedWith.Some?
            && StreamQueue.Messages(reader.results) == p.s.written
            && reader.queue.Pop().0.value.status.Ok() == p.s.finishedWith.value.Ok()
            && (!p.s.finishedWith.value.Ok() ==> reader.queue.Pop().0.value.status == p.s.finishedWith.value)
  {
    var p := RunOf(maxResponse, maxReceive, events);
    FedIsAPrefix(p.r.call.input.lim, p.s, p.r.call.input.fed);
  }

  /**
   The final status, exactly: once a local failure has been delivered it is that
   failure's, even if the trailers had already set it; otherwise the server's.
  */
  lemma FinalStatus(maxResponse: nat, maxReceive: nat, events: seq<Event>)
    ensures var p := RunOf(maxResponse, maxReceive, events);
            var c := p.r.call;
            && (c.trailersDone ==> p.s.finishedWith.Some?)
            && c.final == if c.failed.Some? && c.posted.None? then c.failed
                          else if c.trailersDone then p.s.finishedWith
                          else None
  {}

  /** Once the trailers are in and nothing failed on the client's side, all messages were read or wait to be. */
  lemma NothingIsLost(maxResponse: nat, maxReceive: nat, events: seq<Event>)
    requires var r := RunOf(maxResponse, maxReceive, events).r; r.trailersIn && r.call.failed.None?
    ensures var p := RunOf(maxResponse, maxReceive, events);
            var reader := p.r.call.input.reader;
            StreamQueue.Messages(reader.results) + reader.queue.buffer == p.s.written
  {
    var p := RunOf(maxResponse, maxReceive, events);
    FedIsAPrefix(p.r.call.input.lim, p.s, p.r.call.input.fed);
  }
}
