/**
 The client channel's connection and call lifecycle (src/client/channel_impl.cc,
 channel_impl.h): each callback that runs on the strand is one step.
*/
module ChannelModel {
  import opened Bytes
  import opened Statuses
  import opened Ledgers
  import Timeout

  datatype ConnState = Idle | Connecting | Ready | Failed | Shutdown

  type StreamId = nat

  const CHANNEL_FAILED := Statuses.Failed(UNAVAILABLE, "channel failed")
  const SHUT_DOWN := Statuses.Failed(CANCELLED, "channel shut down")
  const CALL_CANCELLED := Statuses.Failed(CANCELLED, "call cancelled")
  const DEADLINE_PASSED := Statuses.Failed(DEADLINE_EXCEEDED, "deadline already passed")
  const REQUEST_TOO_LARGE := Statuses.Failed(RESOURCE_EXHAUSTED, "request too large")

  function GoawayStatus(last: nat): Failure {
    Statuses.Failed(UNAVAILABLE, "server sent GOAWAY (last_stream_id=" + Timeout.Text(last) + ")")
  }

  /** How an attempt to open a stream on a ready connection ends. */
  datatype Attempt = DeadlinePassed | TooLarge | SubmitError(status: Failure) | Opened {
    function Status(): Status {
      match this
      case DeadlinePassed => DEADLINE_PASSED
      case TooLarge => REQUEST_TOO_LARGE
      case SubmitError(status) => status
      case Opened => OK_STATUS
    }
  }

  type Attempts = map<Id, Attempt>

  function AttemptOf(attempts: Attempts, id: Id): Attempt {
    if id in attempts then attempts[id] else Opened
  }

  /** The streams of one kind of call: those the channel tracks, and all it ever opened. */
  datatype Streams = Streams(active: map<StreamId, Id>, ever: map<StreamId, Id>) {
    function Open(k: StreamId, id: Id): Streams {
      Streams(active[k := id], ever[k := id])
    }

    function Forget(k: StreamId): Streams {
      this.(active := active - {k})
    }

    function UpTo(last: nat): Streams {
      this.(active := Below(active, last))
    }
  }

  function Below(active: map<StreamId, Id>, last: nat): map<StreamId, Id> {
    map k | k in active && k <= last :: active[k]
  }

  function Above(active: map<StreamId, Id>, last: nat): set<Id> {
    set k | k in active && k > last :: active[k]
  }

  function Calls(active: map<StreamId, Id>): set<Id> {
    set k | k in active :: active[k]
  }

  /**
   `waiters`: connect requests; `calls`: unary calls, live while their call state has
   not completed, answered by their completion callback; `handles`: streaming calls,
   answered when their handle is given out; `failures`: what the channel told
   streaming calls to fail with. `tls`: the error that configuring TLS reports.
   `connects`, `lowest` and `closed` record the connection attempts, the lowest
   stream id of a GOAWAY, and the streams that closed.
  */
  datatype Channel = Channel(
    tls: Option<Failure>, state: ConnState, session: bool, connecting: bool, terminal: Option<Failure>,
    waiters: Ledger, calls: Ledger, cancelled: set<Id>, unary: Streams,
    handles: Ledger, streaming: Streams, failures: Answers,
    nextStream: StreamId, connects: nat, lowest: Option<nat>, closed: set<StreamId>)
  {
    predicate Undecided() {
      state == Idle || state == Connecting
    }

    function ShutdownStatus(): Status {
      if terminal.Some? then terminal.value else SHUT_DOWN
    }

    // ----- Unary calls -----

    /** The tail of SubmitCall, for a call in transit on a decided channel. */
    function Settle(id: Id, attempt: Attempt): Channel {
      if id in cancelled then this.(calls := calls.Settle(id, CALL_CANCELLED))
      else if state == Shutdown then this.(calls := calls.Settle(id, ShutdownStatus()))
      else if state == Failed then this.(calls := calls.Settle(id, CHANNEL_FAILED))
      else if attempt != Opened then this.(calls := calls.Settle(id, attempt.Status()))
      else this.(calls := calls.Begin(id), unary := unary.Open(nextStream, id), nextStream := nextStream + 2)
    }

    function SubmitCall(id: Id, attempt: Attempt): Channel {
      var c := this.(calls := calls.Admit(id));
      if id !in cancelled && Undecided() then c.(calls := c.calls.Wait(id)).ConnectIfIdle()
      else c.Settle(id, attempt)
    }

    function SubmitFirst(attempts: Attempts): (c: Channel)
      requires calls.queue != []
      ensures c.calls.queue == calls.queue[1..]
    {
      var id := calls.queue[0];
      this.(calls := calls.Release()).Settle(id, AttemptOf(attempts, id))
    }

    function SubmitPending(attempts: Attempts): Channel
      decreases |calls.queue|
    {
      if calls.queue == [] then this else SubmitFirst(attempts).SubmitPending(attempts)
    }

    // ----- Streaming calls -----

    function SettleStreaming(id: Id, attempt: Attempt): Channel {
      if state == Shutdown then this.(handles := handles.Settle(id, ShutdownStatus()))
      else if state == Failed then this.(handles := handles.Settle(id, CHANNEL_FAILED))
      else if attempt != Opened then this.(handles := handles.Settle(id, attempt.Status()))
      else this.(handles := handles.Settle(id, OK_STATUS), streaming := streaming.Open(nextStream, id),
                 nextStream := nextStream + 2)
    }

    function SubmitStreaming(id: Id, attempt: Attempt): Channel {
      var c := this.(handles := handles.Admit(id));
      if Undecided() then c.(handles := c.handles.Wait(id)).ConnectIfIdle()
      else c.SettleStreaming(id, attempt)
    }

    function SubmitFirstGeneric(attempts: Attempts): (c: Channel)
      requires handles.queue != []
      ensures c.handles.queue == handles.queue[1..]
    {
      var id := handles.queue[0];
      this.(handles := handles.Release()).SettleStreaming(id, AttemptOf(attempts, id))
    }

    function SubmitGeneric(attempts: Attempts): Channel
      decreases |handles.queue|
    {
      if handles.queue == [] then this else SubmitFirstGeneric(attempts).SubmitGeneric(attempts)
    }

    // ----- The connection -----

    function Connect(id: Id): Channel {
      var c := this.(waiters := waiters.Admit(id));
      match state
      case Shutdown => c.(waiters := c.waiters.Settle(id, ShutdownStatus()))
      case Ready => c.(waiters := c.waiters.Settle(id, OK_STATUS))
      case Failed => c.(waiters := c.waiters.Settle(id, CHANNEL_FAILED))
      case _ => c.(waiters := c.waiters.Wait(id)).ConnectIfIdle()
    }

    function ConnectIfIdle(): Channel {
      if state == Idle then this.(state := Connecting).DoConnect() else this
    }

    function DoConnect(): Channel {
      var c := this.(connects := connects + 1);
      if tls.Some? then c.(state := Shutdown, terminal := tls).DrainWithStatus(tls.value)
      else c.(connecting := true)
    }

    /** Queued streaming calls run again, and find the channel decided. */
    function FailAll(status: Status): Channel {
      this.(calls := calls.SettleQueue(status)).SubmitGeneric(map[])
    }

    function DrainWithStatus(status: Status): Channel {
      this.(waiters := waiters.SettleQueue(status)).FailAll(status)
    }

    function OnConnected(error: Option<Failure>, attempts: Attempts): Channel {
      var c := this.(connecting := false, state := if error.Some? then Failed else Ready);
      if error.Some? then c.DrainWithStatus(error.value)
      else c.(waiters := c.waiters.SettleQueue(OK_STATUS)).SubmitPending(attempts).SubmitGeneric(attempts)
    }

    function OnConnect(attempts: Attempts): Channel {
      if state == Shutdown then this.(connecting := false)
      else this.(session := true).OnConnected(None, attempts)
    }

    function OnError(error: Failure): Channel {
      if state == Shutdown then this
      else if state != Ready then OnConnected(Some(error), map[])
      else FailAll(error)
    }

    /** Fails the calls the peer will not process, and forgets their streams. */
    function CutOff(last: nat): Channel {
      var status := GoawayStatus(last);
      this.(state := Failed,
            calls := calls.SettleLive(Above(unary.active, last), status), unary := unary.UpTo(last),
            failures := AnswerAll(failures, Above(streaming.active, last), status), streaming := streaming.UpTo(last),
            lowest := Some(if lowest.Some? && lowest.value < last then lowest.value else last))
    }

    function OnGoaway(last: nat): Channel {
      if state == Shutdown then this else CutOff(last).FailAll(GoawayStatus(last))
    }

    function FailActive(): Channel {
      this.(calls := calls.SettleLive(Calls(unary.active), SHUT_DOWN), unary := unary.(active := map[]),
            failures := AnswerAll(failures, Calls(streaming.active), SHUT_DOWN), streaming := streaming.(active := map[]))
    }

    /** Closes the sessions, answers connect requests and fails every call under way. */
    function CloseDown(): Channel {
      this.(state := Shutdown, session := false, connecting := false, waiters := waiters.SettleQueue(SHUT_DOWN)).FailActive()
    }

    function DoShutdown(): Channel {
      if state == Shutdown then this else CloseDown().FailAll(SHUT_DOWN)
    }

    // ----- Streams -----

    /** A call state completes: trailers, a framing error, its deadline or a cancellation. */
    function CallDone(id: Id, status: Status): Channel {
      this.(calls := calls.SettleLive({id}, status))
    }

    /** A stream's on_close: the call state completes unless it already has. */
    function StreamClosed(k: StreamId, status: Failure): Channel {
      this.(calls := if k in unary.ever then calls.SettleLive({unary.ever[k]}, status) else calls,
            unary := unary.Forget(k), streaming := streaming.Forget(k), closed := closed + {k})
    }
  }

  function NewChannel(tls: Option<Failure>): Channel {
    Channel(tls, Idle, false, false, None, BLANK, BLANK, {}, Streams(map[], map[]),
            BLANK, Streams(map[], map[]), map[], 1, 0, None, {})
  }

  datatype Event =
    | Connect(id: Id)
    | SubmitCall(id: Id, attempt: Attempt)
    | SubmitStreaming(id: Id, attempt: Attempt)
    | UserCancel(id: Id)
    | OnConnect(attempts: Attempts)
    | OnError(error: Failure)
    | OnGoaway(last: nat)
    | DoShutdown
    | CallDone(id: Id, status: Status)
    | StreamClosed(k: StreamId, failure: Failure)

  /**
   One strand step. Ids are names: a request under a name already used is no event;
   nor is a callback of a session or stream that was never created.
  */
  function Step(c: Channel, e: Event): Channel {
    match e
    case Connect(id) => if id in c.waiters.known then c else c.Connect(id)
    case SubmitCall(id, attempt) => if id in c.calls.known then c else c.SubmitCall(id, attempt)
    case SubmitStreaming(id, attempt) => if id in c.handles.known then c else c.SubmitStreaming(id, attempt)
    case UserCancel(id) => c.(cancelled := c.cancelled + {id})
    case OnConnect(attempts) => if c.connects == 0 then c else c.OnConnect(attempts)
    case OnError(error) => if c.connects == 0 then c else c.OnError(error)
    case OnGoaway(last) => if c.connects == 0 then c else c.OnGoaway(last)
    case DoShutdown => c.DoShutdown()
    case CallDone(id, status) => c.CallDone(id, status)
    case StreamClosed(k, failure) =>
      if k in c.unary.ever || k in c.streaming.ever then c.StreamClosed(k, failure) else c
  }

  function RunOf(tls: Option<Failure>, events: seq<Event>): Channel {
    if events == [] then NewChannel(tls)
    else Step(RunOf(tls, events[..|events| - 1]), events[|events| - 1])
  }
}
