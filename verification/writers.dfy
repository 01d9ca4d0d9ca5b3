/** The queue of encoded frames that a generator callback drains, with a byte offset into the first. */
module SendQueue {
  import opened Bytes

  datatype SendQueue = SendQueue(pending: seq<bytes>, offset: nat) {
    predicate WellFormed() {
      && (forall i | 0 <= i < |pending| :: pending[i] != [])
      && (if pending == [] then offset == 0 else offset < |pending[0]|)
    }

    /** The octets not handed to the transport yet. */
    function Remaining(): bytes
      requires WellFormed()
    {
      Concat(pending)[offset..]
    }

    function Push(frame: bytes): SendQueue {
      this.(pending := pending + [frame])
    }

    /** What a generator hands over for a buffer of `len` octets. */
    function Chunk(len: nat): bytes
      requires WellFormed() && pending != []
    {
      var remaining := |pending[0]| - offset;
      pending[0][offset..offset + (if remaining < len then remaining else len)]
    }

    function Drain(len: nat): SendQueue
      requires WellFormed() && pending != []
    {
      var offset' := offset + |Chunk(len)|;
      if offset' == |pending[0]| then SendQueue(pending[1..], 0) else SendQueue(pending, offset')
    }
  }

  const NOTHING := SendQueue([], 0)

  lemma {:induction false} ConcatAppend(chunks: seq<bytes>, chunk: bytes)
    ensures Concat(chunks + [chunk]) == Concat(chunks) + chunk
  {
    if chunks == [] {
      assert [chunk][1..] == [] && chunk + [] == chunk;
    } else {
      ConcatAppend(chunks[1..], chunk);
      assert (chunks + [chunk])[1..] == chunks[1..] + [chunk];
      assert chunks[0] + (Concat(chunks[1..]) + chunk) == Concat(chunks) + chunk;
    }
  }

  lemma PushAppends(q: SendQueue, frame: bytes)
    requires q.WellFormed() && frame != []
    ensures q.Push(frame).WellFormed()
    ensures q.Push(frame).Remaining() == q.Remaining() + frame
  {
    ConcatAppend(q.pending, frame);
    ConcatIsLongEnough(q);
  }

  lemma ConcatIsLongEnough(q: SendQueue)
    requires q.WellFormed()
    ensures q.offset <= |Concat(q.pending)|
  {}

  /** Draining takes octets off the front, loses none, and makes progress for any positive buffer. */
  lemma DrainConserves(q: SendQueue, len: nat)
    requires q.WellFormed() && q.pending != []
    ensures q.Drain(len).WellFormed()
    ensures q.Chunk(len) + q.Drain(len).Remaining() == q.Remaining()
    ensures |q.Chunk(len)| <= len && (len > 0 ==> q.Chunk(len) != [])
  {
    var front, rest := q.pending[0], Concat(q.pending[1..]);
    var all := Concat(q.pending);
    assert all == front + rest;
    assert q.Remaining() == front[q.offset..] + rest;
    var offset' := q.offset + |q.Chunk(len)|;
    assert front[q.offset..] == q.Chunk(len) + front[offset'..];
    if offset' == |front| {
      assert rest[0..] == rest;
    } else {
      assert all[offset'..] == front[offset'..] + rest;
    }
  }

  /** Nothing remains exactly when no frame is pending. */
  lemma EmptyMeansSent(q: SendQueue)
    requires q.WellFormed()
    ensures q.Remaining() == [] <==> q.pending == []
  {
    if q.pending != [] {
      assert Concat(q.pending) == q.pending[0] + Concat(q.pending[1..]);
    }
  }
}

/** The writer of a client's request stream (src/client/raw_client_impls.cc and its generator). */
module ClientWriter {
  import opened Bytes
  import opened Statuses
  import opened Lpm
  import opened SendQueue

  /** What a generator call tells the transport. */
  datatype Pull = Deferred | Eof | Data(octets: bytes)

  /**
   The writer's fields. `attached`: the request object is set; `deferred`: the
   transport waits for a resume before it calls the generator again.
  */
  datatype Writer = Writer(queue: SendQueue, writesDone: bool, attached: bool, deferred: bool) {
    /** Posted by Enqueue. */
    function Append(frame: bytes): Writer {
      Resumed().(queue := queue.Push(frame))
    }

    /** Posted by MarkWritesDone. */
    function Finish(): Writer {
      Resumed().(writesDone := true)
    }

    function Resumed(): Writer {
      this.(deferred := deferred && !attached)
    }

    function Generate(len: nat): (Pull, Writer)
      requires queue.WellFormed()
    {
      if queue.pending == [] then
        if writesDone then (Eof, this) else (Deferred, this.(deferred := true))
      else (Data(queue.Chunk(len)), this.(queue := queue.Drain(len)))
    }

    /** On an open stream, a generator that waits has nothing to send and no end to announce. */
    predicate NoLostWakeUp() {
      attached && deferred ==> queue.pending == [] && !writesDone
    }
  }

  const NEW_WRITER := Writer(NOTHING, false, true, false)

  lemma WakeUpsAreKept(w: Writer, frame: bytes, len: nat)
    requires w.queue.WellFormed() && w.NoLostWakeUp() && frame != []
    ensures w.Append(frame).queue.WellFormed() && w.Append(frame).NoLostWakeUp()
    ensures w.Finish().NoLostWakeUp()
    ensures !w.deferred ==> w.Generate(len).1.queue.WellFormed() && w.Generate(len).1.NoLostWakeUp()
  {
    PushAppends(w.queue, frame);
    if w.queue.pending != [] {
      DrainConserves(w.queue, len);
    }
  }

  class RawClientWriterImpl {
    var pending: seq<bytes>
    var offset: nat
    var writesDone: bool
    var attached: bool
    var deferred: bool

    ghost function State(): Writer
      reads this
    {
      Writer(SendQueue(pending, offset), writesDone, attached, deferred)
    }

    constructor ()
      ensures State() == NEW_WRITER.(attached := false)
    {
      pending, offset, writesDone, attached, deferred := [], 0, false, false, false;
    }

    /** The part of Enqueue before the post: None when the message cannot be framed. */
    static method Enqueue(message: bytes) returns (status: Status, frame: Option<bytes>)
      ensures |message| <= MAX_PAYLOAD ==> status == OK_STATUS && frame == Some(Encoding(Frame(0, message)))
      ensures |message| > MAX_PAYLOAD ==> status == Failed(RESOURCE_EXHAUSTED, "message too large") && frame.None?
    {
      var ok, out := EncodeFrame(0, message, []);
      if !ok {
        return Failed(RESOURCE_EXHAUSTED, "message too large"), None;
      }
      return OK_STATUS, Some(out);
    }

    method Append(frame: bytes)
      modifies this
      ensures State() == old(State()).Append(frame)
    {
      pending := pending + [frame];
      if attached { deferred := false; }
    }

    method MarkWritesDone()
      modifies this
      ensures State() == old(State()).Finish()
    {
      writesDone := true;
      if attached { deferred := false; }
    }

    /** The generator: fills the front of `buf` and reports how much, or that it defers or ends. */
    method Generate(buf: array<byte>) returns (pull: Pull)
      requires State().queue.WellFormed()
      modifies this, buf
      ensures (pull, State()) == old(State()).Generate(buf.Length)
      ensures pull.Data? ==> |pull.octets| <= buf.Length && buf[..|pull.octets|] == pull.octets
    {
      if pending == [] {
        if writesDone {
          return Eof;
        }
        deferred := true;
        return Deferred;
      }
      var front := pending[0];
      var remaining := |front| - offset;
      var n := if remaining < buf.Length then remaining else buf.Length;
      forall i | 0 <= i < n {
        buf[i] := front[offset + i];
      }
      pull := Data(front[offset..offset + n]);
      assert buf[..n] == front[offset..offset + n];
      offset := offset + n;
      if offset == |front| {
        pending, offset := pending[1..], 0;
      }
    }
  }
}

/** The writer of a server's response stream (src/server/raw_server_impls.cc and its generators). */
module ServerWriter {
  import opened Bytes
  import opened Statuses
  import opened Lpm
  import opened SendQueue
  import opened Metadata

  datatype Pull = Deferred | Eof(trailers: seq<Entry>) | Data(octets: bytes)

  const TOO_LARGE := Failed(RESOURCE_EXHAUSTED, "response message exceeds max_response_message_size")
  const UNFRAMEABLE := Failed(RESOURCE_EXHAUSTED, "message too large to frame")
  const AFTER_FINISH := Failed(INTERNAL, "RawServerWriterImpl::Write called after Finish")

  datatype Writer = Writer(maxResponseSize: nat, queue: SendQueue, finished: bool, trailers: seq<Entry>, deferred: bool) {
    function Write(message: bytes): (Status, Writer) {
      if finished then (AFTER_FINISH, this)
      else if |message| > maxResponseSize then (TOO_LARGE, Finish(TOO_LARGE))
      else if |message| > MAX_PAYLOAD then (UNFRAMEABLE, this)
      else (OK_STATUS, this.(queue := queue.Push(Encoding(Frame(0, message))), deferred := false))
    }

    function Finish(status: Status): Writer {
      if finished then this
      else this.(finished := true, trailers := Trailers(status, [], trailers), deferred := false)
    }

    /** The stream closed: no resume, and no trailers were built. */
    function Close(): Writer {
      this.(finished := true)
    }

    function Generate(len: nat): (Pull, Writer)
      requires queue.WellFormed()
    {
      if queue.pending == [] then
        if finished then (Eof(trailers), this) else (Deferred, this.(deferred := true))
      else (Data(queue.Chunk(len)), this.(queue := queue.Drain(len)))
    }

    predicate NoLostWakeUp() {
      deferred ==> queue.pending == [] && !finished
    }
  }

  /** Write returns OK exactly when the writer is open and the message is within the limit and can be framed. */
  lemma WriteStatus(w: Writer, message: bytes)
    ensures var (status, w') := w.Write(message);
            && (status.Ok() <==> !w.finished && |message| <= w.maxResponseSize && |message| <= MAX_PAYLOAD)
            && (status.Ok() ==> w' == w.(queue := w.queue.Push(Encoding(Frame(0, message))), deferred := false))
            && (w.finished ==> status.code == INTERNAL && w' == w)
            && (!w.finished && !status.Ok() ==>
                  status.code == RESOURCE_EXHAUSTED && (w'.finished <==> |message| > w.maxResponseSize) && w'.queue == w.queue)
  {}

  lemma WakeUpsAreKept(w: Writer, message: bytes, status: Status, len: nat)
    requires w.queue.WellFormed() && w.NoLostWakeUp()
    ensures w.Write(message).1.queue.WellFormed() && w.Write(message).1.NoLostWakeUp()
    ensures w.Finish(status).queue.WellFormed() && w.Finish(status).NoLostWakeUp()
    ensures !w.deferred ==> w.Generate(len).1.queue.WellFormed() && w.Generate(len).1.NoLostWakeUp()
  {
    if |message| <= MAX_PAYLOAD {
      PushAppends(w.queue, Encoding(Frame(0, message)));
    }
    if w.queue.pending != [] {
      DrainConserves(w.queue, len);
    }
  }

  class RawServerWriterImpl {
    const maxResponseSize: nat
    var pending: seq<bytes>
    var offset: nat
    var finished: bool
    var trailHeaders: seq<Entry>
    var deferred: bool

    ghost function State(): Writer
      reads this
    {
      Writer(maxResponseSize, SendQueue(pending, offset), finished, trailHeaders, deferred)
    }

    constructor (maxResponseSize: nat)
      ensures State() == Writer(maxResponseSize, NOTHING, false, [], false)
    {
      this.maxResponseSize := maxResponseSize;
      pending, offset, finished, trailHeaders, deferred := [], 0, false, [], false;
    }

    method Write(message: bytes) returns (status: Status)
      modifies this
      ensures (status, State()) == old(State()).Write(message)
      ensures status.Ok() <==> !old(finished) && |message| <= maxResponseSize && |message| <= MAX_PAYLOAD
      ensures status.Ok() ==> pending == old(pending) + [Encoding(Frame(0, message))] && offset == old(offset) && !finished && !deferred
      ensures !status.Ok() ==> pending == old(pending) && offset == old(offset)
      ensures !status.Ok() ==> status.code == if old(finished) then INTERNAL else RESOURCE_EXHAUSTED
      ensures !status.Ok() && !old(finished) ==> (finished <==> |message| > maxResponseSize)
    {
      if finished {
        return AFTER_FINISH;
      }
      if |message| > maxResponseSize {
        Finish(TOO_LARGE);
        return TOO_LARGE;
      }
      var ok, frame := EncodeFrame(0, message, []);
      if !ok {
        return UNFRAMEABLE;
      }
      pending := pending + [frame];
      deferred := false;
      return OK_STATUS;
    }

    method Finish(status: Status)
      modifies this
      ensures State() == old(State()).Finish(status)
    {
      if finished { return; }
      finished := true;
      trailHeaders := BuildTrailers(status, [], trailHeaders);
      deferred := false;
    }

    method Generate(buf: array<byte>) returns (pull: Pull)
      requires State().queue.WellFormed()
      modifies this, buf
      ensures (pull, State()) == old(State()).Generate(buf.Length)
      ensures pull.Data? ==> |pull.octets| <= buf.Length && buf[..|pull.octets|] == pull.octets
    {
      if pending == [] {
        if finished {
          return Eof(trailHeaders);
        }
        deferred := true;
        return Deferred;
      }
      var front := pending[0];
      var remaining := |front| - offset;
      var n := if remaining < buf.Length then remaining else buf.Length;
      forall i | 0 <= i < n {
        buf[i] := front[offset + i];
      }
      pull := Data(front[offset..offset + n]);
      assert buf[..n] == front[offset..offset + n];
      offset := offset + n;
      if offset == |front| {
        pending, offset := pending[1..], 0;
      }
    }
  }
}
