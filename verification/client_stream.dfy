/**
 The client's side of a call that streams responses: parsing DATA, delivering the
 trailers' status, failing locally and closing (src/client/server_streaming_call_state.cc;
 src/client/bidi_streaming_call_state.cc does the same for its reader).
*/
module ClientStream {
  import opened Bytes
  import opened Statuses
  import opened StatusMap
  import opened Lpm
  import opened Incremental
  import opened Metadata
  import opened Receiving
  import StreamQueue

  const TOO_LARGE := Failed(RESOURCE_EXHAUSTED, "received message too large")

  /**
   `posted`: the status a local failure will deliver when the executor runs it;
   `failed`: the local failure that closed the call, if one did.
  */
  datatype Client = Client(input: Reception, closed: bool, trailersDone: bool, final: Option<Status>,
                           posted: Option<Status>, failed: Option<Status>)
  {
    function Fail(status: Failure): Client {
      if closed then this else this.(closed := true, posted := Some(status), failed := Some(status))
    }

    function OnData(chunk: bytes): Client
      requires input.parser.WellFormed()
    {
      if closed || chunk == [] then this
      else
        var c := this.(input := input.Receive(chunk));
        if Resume(input.lim, input.parser, chunk).verdict == Clean then c else c.Fail(TOO_LARGE)
    }

    function OnTrailers(trailers: seq<Entry>): Client {
      if closed then this
      else
        var status := TrailerStatus(trailers);
        this.(trailersDone := true, final := Some(status),
              input := input.Tell(if status.Ok() then StreamQueue.SetEos else StreamQueue.SetError(status)))
    }

    function OnStreamClose(error: nat): Client {
      if closed then this
      else if trailersDone then this.(closed := true)
      else Fail(ClosedEarly(error))
    }

    /** The executor runs what a failure posted. */
    function RunPosted(): Client {
      if posted.None? then this
      else this.(posted := None, final := posted, input := input.Tell(StreamQueue.SetError(posted.value)))
    }
  }

  function NewClient(max: nat): Client {
    Client(Fresh(Limits(max, false)), false, false, None, None, None)
  }

  /** The parsing state and loop that each of the client's streaming call states carries. */
  class ResponseParser {
    const maxMessageSize: nat
    const hdrBuf: array<byte>
    var hdrDone: bool
    var hdrBytes: nat
    var payloadLen: nat
    var payloadBuf: bytes

    ghost predicate Valid()
      reads this, hdrBuf
    {
      && hdrBuf.Length == HEADER_SIZE && hdrBytes <= HEADER_SIZE
      && (hdrDone <==> hdrBytes == HEADER_SIZE)
      && State().WellFormed()
    }

    ghost function State(): Partial
      reads this, hdrBuf
      requires hdrBytes <= hdrBuf.Length
    {
      Partial(hdrBuf[..hdrBytes], payloadLen, payloadBuf)
    }

    function Lim(): Limits {
      Limits(maxMessageSize, false)
    }

    constructor (maxMessageSize: nat)
      ensures Valid() && fresh(hdrBuf) && State() == IDLE && this.maxMessageSize == maxMessageSize
    {
      this.maxMessageSize := maxMessageSize;
      hdrBuf := new byte[HEADER_SIZE](_ => 0);
      hdrDone, hdrBytes, payloadLen, payloadBuf := false, 0, 0, [];
    }

    /** The loop pass that collects header octets; true when the message is refused. */
    method TakeHeader(copy: bytes, pos: nat) returns (pos': nat, refused: bool, out: seq<bytes>)
      requires Valid() && !hdrDone && pos < |copy|
      modifies this, hdrBuf
      ensures Valid() && pos < pos' <= |copy|
      ensures (if refused then TooLarge else Clean, out, State(), copy[pos'..]) == HeaderPass(Lim(), old(State()), copy[pos..])
    {
      ghost var chunk := copy[pos..];
      ghost var before := State();
      var take := Min(HEADER_SIZE - hdrBytes, |copy| - pos);
      forall i | 0 <= i < take {
        hdrBuf[hdrBytes + i] := copy[pos + i];
      }
      assert hdrBuf[..hdrBytes + take] == before.header + chunk[..take];
      hdrBytes := hdrBytes + take;
      pos', refused, out := pos + take, false, [];
      assert copy[pos'..] == chunk[take..];
      if hdrBytes == HEADER_SIZE {
        hdrDone := true;
        assert hdrBuf[1..5] == hdrBuf[..hdrBytes][1..5];
        payloadLen := FromBe32(hdrBuf[1..5]);
        if payloadLen > maxMessageSize {
          return pos', true, [];
        }
        payloadBuf := [];
        if payloadLen == 0 {
          out := [[]];
          hdrDone, hdrBytes := false, 0;
          assert State() == IDLE;
        }
      }
    }

    /** The loop pass that collects payload octets. */
    method TakePayload(copy: bytes, pos: nat) returns (pos': nat, out: seq<bytes>)
      requires Valid() && hdrDone && pos < |copy|
      modifies this
      ensures Valid() && pos <= pos' <= |copy| && (pos' == pos ==> !hdrDone)
      ensures Advances(Lim(), old(State()), copy[pos..], Clean, out, State(), copy[pos'..])
    {
      ghost var chunk := copy[pos..];
      AbsorbPayload(Lim(), State(), chunk);
      var need := payloadLen - |payloadBuf|;
      var take := Min(need, |copy| - pos);
      assert copy[pos..pos + take] == chunk[..take] && copy[pos + take..] == chunk[take..];
      payloadBuf := payloadBuf + copy[pos..pos + take];
      pos', out := pos + take, [];
      if |payloadBuf| == payloadLen {
        out := [payloadBuf];
        hdrDone, hdrBytes, payloadLen, payloadBuf := false, 0, 0, [];
        assert State() == IDLE;
      }
    }

    /** The parsing loop of on_data; `out` are the messages completed, `refused` that one was too large. */
    method ParseChunk(copy: bytes) returns (refused: bool, out: seq<bytes>)
      requires Valid()
      modifies this, hdrBuf
      ensures Valid()
      ensures var o := Resume(Lim(), old(State()), copy);
              o == Outcome(out, State(), if refused then TooLarge else Clean)
    {
      ghost var all := Resume(Lim(), State(), copy);
      var pos: nat := 0;
      refused, out := false, [];
      assert copy[0..] == copy;
      while pos < |copy|
        invariant Valid() && pos <= |copy|
        invariant all == Resume(Lim(), State(), copy[pos..]).After(out)
        decreases |copy| - pos, hdrBytes
      {
        var more;
        if !hdrDone {
          AbsorbHeader(Lim(), State(), copy[pos..]);
          pos, refused, more := TakeHeader(copy, pos);
        } else {
          pos, more := TakePayload(copy, pos);
        }
        AfterAfter(if !refused then Resume(Lim(), State(), copy[pos..]) else all, out, more);
        out := out + more;
        if refused {
          return;
        }
      }
    }
  }

  class StreamingClientCallState {
    const parser: ResponseParser
    var closed: bool
    var trailersDone: bool
    var finalStatus: Option<Status>
    var posted: Option<Status>
    var queue: StreamQueue.Queue  // the reader's message queue
    ghost var fed: bytes
    ghost var verdict: Verdict
    ghost var pushed: seq<bytes>
    ghost var results: seq<StreamQueue.PopResult>
    ghost var failed: Option<Status>

    ghost predicate Valid()
      reads this, parser, parser.hdrBuf
    {
      parser.Valid()
    }

    ghost function Input(): Reception
      reads this, parser, parser.hdrBuf
      requires Valid()
    {
      Reception(parser.Lim(), fed, parser.State(), verdict, StreamQueue.Run(queue, pushed, results))
    }

    ghost function State(): Client
      reads this, parser, parser.hdrBuf
      requires Valid()
    {
      Client(Input(), closed, trailersDone, finalStatus, posted, failed)
    }

    constructor (maxMessageSize: nat)
      ensures Valid() && fresh(parser) && fresh(parser.hdrBuf) && State() == NewClient(maxMessageSize)
    {
      parser := new ResponseParser(maxMessageSize);
      closed, trailersDone, finalStatus, posted := false, false, None, None;
      queue := StreamQueue.EMPTY;
      fed, verdict, pushed, results, failed := [], Clean, [], [], None;
    }

    method Fail(status: Failure)
      requires Valid()
      modifies this
      ensures Valid() && State() == old(State()).Fail(status)
    {
      if closed { return; }
      closed, posted := true, Some(status);
      failed := posted;
    }

    method OnData(chunk: bytes)
      requires Valid()
      modifies this, parser, parser.hdrBuf
      ensures Valid() && State() == old(State()).OnData(chunk)
    {
      if chunk == [] || closed { return; }
      var refused, out := parser.ParseChunk(chunk);
      queue := queue.PushAll(out);
      fed, pushed := fed + chunk, pushed + out;
      verdict := if verdict == Clean && refused then TooLarge else verdict;
      if refused {
        Fail(TOO_LARGE);
      }
    }

    method OnTrailers(trailers: seq<Entry>)
      requires Valid()
      modifies this
      ensures Valid() && State() == old(State()).OnTrailers(trailers)
    {
      if closed { return; }
      var status := ExtractTrailerStatus(trailers);
      trailersDone := true;
      queue := if status.Ok() then queue.SetEos() else queue.SetError(status);
      finalStatus := Some(status);
    }

    method OnStreamClose(error: nat)
      requires Valid()
      modifies this
      ensures Valid() && State() == old(State()).OnStreamClose(error)
    {
      if closed { return; }
      closed := true;
      if !trailersDone {
        posted := Some(ClosedEarly(error));
        failed := posted;
      }
    }

    method RunPosted()
      requires Valid()
      modifies this
      ensures Valid() && State() == old(State()).RunPosted()
    {
      if posted.Some? {
        queue := queue.SetError(posted.value);
        finalStatus, posted := posted, None;
      }
    }
  }
}
