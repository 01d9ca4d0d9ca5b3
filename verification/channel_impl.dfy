/**
 The channel as an object whose methods update its fields (src/client/channel_impl.cc).

 Each method is proved against the step of ChannelModel of the same name: from an
 object that represents a model state it leaves one that represents the state after
 the step. The model state is a ghost argument, because it also remembers the past.
*/
module ChannelImplementation {
  import opened Bytes
  import opened Statuses
  import opened Ledgers
  import opened ChannelModel

  class ChannelImpl {
    const tlsError: Option<Failure>
    var state: ConnState
    var session: bool
    var connectingSession: bool
    var terminalStatus: Option<Failure>
    var connectWaiters: seq<Id>
    var pendingCalls: seq<Id>
    var pendingGenericCalls: seq<Id>
    var activeCalls: map<StreamId, Id>
    var activeStreamingCalls: map<StreamId, Id>
    var nextStreamId: StreamId
    var cancelledCalls: set<Id>     // UnaryCallControl's flag, per call
    var runningCalls: set<Id>       // calls whose ClientCallState has not completed
    // The callbacks invoked so far, per id.
    var connected: Answers
    var completed: Answers
    var handedOut: Answers
    var toldToFail: Answers

    ghost predicate Represents(m: Channel)
      reads this
    {
      && tlsError == m.tls && state == m.state && session == m.session && connectingSession == m.connecting
      && terminalStatus == m.terminal
      && connectWaiters == m.waiters.queue && connected == m.waiters.answers
      && pendingCalls == m.calls.queue && runningCalls == m.calls.live && completed == m.calls.answers
      && pendingGenericCalls == m.handles.queue && handedOut == m.handles.answers
      && activeCalls == m.unary.active && activeStreamingCalls == m.streaming.active
      && cancelledCalls == m.cancelled && toldToFail == m.failures && nextStreamId == m.nextStream
    }

    constructor (tlsError: Option<Failure>)
      ensures Represents(NewChannel(tlsError))
    {
      this.tlsError := tlsError;
      state, session, connectingSession, terminalStatus := Idle, false, false, None;
      connectWaiters, pendingCalls, pendingGenericCalls := [], [], [];
      activeCalls, activeStreamingCalls, nextStreamId := map[], map[], 1;
      cancelledCalls, runningCalls := {}, {};
      connected, completed, handedOut, toldToFail := map[], map[], map[], map[];
    }

    function ShutdownStatus(): Status
      reads this
    {
      if terminalStatus.Some? then terminalStatus.value else SHUT_DOWN
    }

    /** Invokes the completion callback of a call. */
    method CompleteCall(ghost m: Channel, id: Id, status: Status)
      requires Represents(m)
      modifies this`completed
      ensures Represents(m.(calls := m.calls.Settle(id, status)))
    {
      completed := Answer(completed, id, status);
    }

    /** What SubmitCall does once the connection is decided. */
    method SettleCall(ghost m: Channel, id: Id, attempt: Attempt)
      requires Represents(m)
      modifies this
      ensures Represents(m.Settle(id, attempt))
    {
      if id in cancelledCalls {
        CompleteCall(m, id, CALL_CANCELLED);
      } else if state == Shutdown {
        CompleteCall(m, id, ShutdownStatus());
      } else if state == ConnState.Failed {
        CompleteCall(m, id, CHANNEL_FAILED);
      } else if attempt != Opened {
        CompleteCall(m, id, attempt.Status());
      } else {
        activeCalls := activeCalls[nextStreamId := id];
        runningCalls := runningCalls + {id};
        nextStreamId := nextStreamId + 2;
      }
    }

    /** What the three streaming submissions do once the connection is decided. */
    method SettleStreamingCall(ghost m: Channel, id: Id, attempt: Attempt)
      requires Represents(m)
      modifies this
      ensures Represents(m.SettleStreaming(id, attempt))
    {
      var status := if state == Shutdown then ShutdownStatus()
                    else if state == ConnState.Failed then CHANNEL_FAILED
                    else attempt.Status();
      if state != Shutdown && state != ConnState.Failed && attempt == Opened {
        activeStreamingCalls := activeStreamingCalls[nextStreamId := id];
        nextStreamId := nextStreamId + 2;
      }
      handedOut := Answer(handedOut, id, status);
    }

    method RunFirstGenericCall(ghost m: Channel, attempts: Attempts)
      requires Represents(m) && pendingGenericCalls != []
      modifies this
      ensures Represents(m.SubmitFirstGeneric(attempts)) && |pendingGenericCalls| < |old(pendingGenericCalls)|
    {
      var id := pendingGenericCalls[0];
      pendingGenericCalls := pendingGenericCalls[1..];
      SettleStreamingCall(m.(handles := m.handles.Release()), id, AttemptOf(attempts, id));
    }

    /** Runs the streaming calls that waited, in order. */
    method RunGenericCalls(ghost m: Channel, attempts: Attempts)
      requires Represents(m)
      modifies this
      ensures Represents(m.SubmitGeneric(attempts))
    {
      ghost var c, end := m, m.SubmitGeneric(attempts);
      while pendingGenericCalls != []
        invariant Represents(c) && c.SubmitGeneric(attempts) == end
        decreases |pendingGenericCalls|
      {
        RunFirstGenericCall(c, attempts);
        c := c.SubmitFirstGeneric(attempts);
      }
    }

    method SubmitFirstCall(ghost m: Channel, attempts: Attempts)
      requires Represents(m) && pendingCalls != []
      modifies this
      ensures Represents(m.SubmitFirst(attempts)) && |pendingCalls| < |old(pendingCalls)|
    {
      var id := pendingCalls[0];
      pendingCalls := pendingCalls[1..];
      SettleCall(m.(calls := m.calls.Release()), id, AttemptOf(attempts, id));
    }

    /** Submits the unary calls that waited, in order. */
    method SubmitPendingCalls(ghost m: Channel, attempts: Attempts)
      requires Represents(m)
      modifies this
      ensures Represents(m.SubmitPending(attempts))
    {
      ghost var c, end := m, m.SubmitPending(attempts);
      while pendingCalls != []
        invariant Represents(c) && c.SubmitPending(attempts) == end
        decreases |pendingCalls|
      {
        SubmitFirstCall(c, attempts);
        c := c.SubmitFirst(attempts);
      }
    }

    method FailAll(ghost m: Channel, status: Status)
      requires Represents(m) && Distinct(pendingCalls)
      modifies this
      ensures Represents(m.FailAll(status))
    {
      var pending := pendingCalls;
      pendingCalls := [];
      completed := Notify(completed, pending, status);
      RunGenericCalls(m.(calls := m.calls.SettleQueue(status)), map[]);
    }

    /** Invokes one callback for each of `ids`, in order. */
    static method Notify(before: Answers, ids: seq<Id>, status: Status) returns (after: Answers)
      requires Distinct(ids)
      ensures after == AnswerAll(before, Elements(ids), status)
    {
      after := before;
      var i := 0;
      while i < |ids|
        invariant i <= |ids| && after == AnswerAll(before, Elements(ids[..i]), status)
      {
        AnswerNext(before, ids, i, status);
        after := Answer(after, ids[i], status);
        i := i + 1;
      }
      assert ids[..i] == ids;
    }

    method DrainWithStatus(ghost m: Channel, status: Status)
      requires Represents(m) && Distinct(pendingCalls) && Distinct(connectWaiters)
      modifies this
      ensures Represents(m.DrainWithStatus(status))
    {
      var waiters := connectWaiters;
      connectWaiters := [];
      connected := Notify(connected, waiters, status);
      FailAll(m.(waiters := m.waiters.SettleQueue(status)), status);
    }

    method DoConnect(ghost m: Channel)
      requires Represents(m) && Distinct(pendingCalls) && Distinct(connectWaiters)
      modifies this
      ensures Represents(m.DoConnect())
    {
      if tlsError.Some? {
        state, terminalStatus := Shutdown, tlsError;
        DrainWithStatus(m.(connects := m.connects + 1, state := Shutdown, terminal := m.tls), tlsError.value);
        return;
      }
      connectingSession := true;
    }

    method Connect(ghost m: Channel, id: Id)
      requires Represents(m) && Distinct(pendingCalls) && Distinct(connectWaiters + [id])
      modifies this
      ensures Represents(m.Connect(id))
    {
      if state == Shutdown {
        connected := Answer(connected, id, ShutdownStatus());
        return;
      }
      if state == Ready {
        connected := Answer(connected, id, OK_STATUS);
        return;
      }
      if state == ConnState.Failed {
        connected := Answer(connected, id, CHANNEL_FAILED);
        return;
      }
      connectWaiters := connectWaiters + [id];
      if state == Connecting { return; }
      state := Connecting;
      DoConnect(m.(waiters := m.waiters.Admit(id).Wait(id), state := Connecting));
    }

    method SubmitCall(ghost m: Channel, id: Id, attempt: Attempt)
      requires Represents(m) && Distinct(pendingCalls + [id]) && Distinct(connectWaiters)
      modifies this
      ensures Represents(m.SubmitCall(id, attempt))
    {
      if id !in cancelledCalls && (state == Idle || state == Connecting) {
        pendingCalls := pendingCalls + [id];
        if state == Idle {
          state := Connecting;
          DoConnect(m.(calls := m.calls.Admit(id).Wait(id), state := Connecting));
        }
        return;
      }
      SettleCall(m.(calls := m.calls.Admit(id)), id, attempt);
    }

    method SubmitStreamingCall(ghost m: Channel, id: Id, attempt: Attempt)
      requires Represents(m) && Distinct(pendingCalls) && Distinct(connectWaiters)
      modifies this
      ensures Represents(m.SubmitStreaming(id, attempt))
    {
      if state == Idle || state == Connecting {
        pendingGenericCalls := pendingGenericCalls + [id];
        if state == Idle {
          state := Connecting;
          DoConnect(m.(handles := m.handles.Admit(id).Wait(id), state := Connecting));
        }
        return;
      }
      SettleStreamingCall(m.(handles := m.handles.Admit(id)), id, attempt);
    }

    method OnConnected(ghost m: Channel, error: Option<Failure>, attempts: Attempts)
      requires Represents(m) && Distinct(pendingCalls) && Distinct(connectWaiters)
      modifies this
      ensures Represents(m.OnConnected(error, attempts))
    {
      connectingSession := false;
      state := if error.Some? then ConnState.Failed else Ready;
      ghost var c := m.(connecting := false, state := state);
      if error.Some? {
        DrainWithStatus(c, error.value);
        return;
      }
      var waiters := connectWaiters;
      connectWaiters := [];
      connected := Notify(connected, waiters, OK_STATUS);
      c := c.(waiters := c.waiters.SettleQueue(OK_STATUS));
      SubmitPendingCalls(c, attempts);
      RunGenericCalls(c.SubmitPending(attempts), attempts);
    }

    method OnConnect(ghost m: Channel, attempts: Attempts)
      requires Represents(m) && Distinct(pendingCalls) && Distinct(connectWaiters)
      modifies this
      ensures Represents(m.OnConnect(attempts))
    {
      if state == Shutdown {
        connectingSession := false;
        return;
      }
      session := true;
      OnConnected(m.(session := true), None, attempts);
    }

    method OnError(ghost m: Channel, error: Failure)
      requires Represents(m) && Distinct(pendingCalls) && Distinct(connectWaiters)
      modifies this
      ensures Represents(m.OnError(error))
    {
      if state == Shutdown { return; }
      if state != Ready {
        OnConnected(m, Some(error), map[]);
      } else {
        FailAll(m, error);
      }
    }

    /** ClientCallState.Fail on each of `calls`: only those still running complete. */
    method FailCalls(calls: set<Id>, status: Status)
      modifies this`runningCalls, this`completed
      ensures runningCalls == old(runningCalls) - calls
      ensures completed == AnswerAll(old(completed), calls * old(runningCalls), status)
    {
      var todo := calls;
      ghost var before, running := completed, runningCalls;
      assert before == AnswerAll(before, {}, status);
      while todo != {}
        invariant todo <= calls && runningCalls == running - (calls - todo)
        invariant completed == AnswerAll(before, (calls - todo) * running, status)
        decreases todo
      {
        var id :| id in todo;
        ghost var done := (calls - todo) * running;
        todo := todo - {id};
        if id in runningCalls {
          AnswerAllMore(before, done, id, status);
          assert (calls - todo) * running == done + {id};
          runningCalls := runningCalls - {id};
          completed := Answer(completed, id, status);
        } else {
          assert (calls - todo) * running == done;
        }
      }
      assert (calls - {}) * running == calls * running;
    }

    method CutOffUnaryCalls(last: nat, status: Failure)
      modifies this`activeCalls, this`runningCalls, this`completed
      ensures activeCalls == Below(old(activeCalls), last)
      ensures runningCalls == old(runningCalls) - Above(old(activeCalls), last)
      ensures completed == AnswerAll(old(completed), Above(old(activeCalls), last) * old(runningCalls), status)
    {
      FailCalls(Above(activeCalls, last), status);
      activeCalls := Below(activeCalls, last);
    }

    /** The loops of OnGoaway over the tracked streams. */
    method CutOff(ghost m: Channel, last: nat)
      requires Represents(m)
      modifies this
      ensures Represents(m.CutOff(last)) && pendingCalls == old(pendingCalls)
    {
      var status := GoawayStatus(last);
      state := ConnState.Failed;
      CutOffUnaryCalls(last, status);
      toldToFail := AnswerAll(toldToFail, Above(activeStreamingCalls, last), status);
      activeStreamingCalls := Below(activeStreamingCalls, last);
    }

    method OnGoaway(ghost m: Channel, last: nat)
      requires Represents(m) && Distinct(pendingCalls)
      modifies this
      ensures Represents(m.OnGoaway(last))
    {
      if state == Shutdown { return; }
      CutOff(m, last);
      FailAll(m.CutOff(last), GoawayStatus(last));
    }

    /** Fails every call that has a stream. */
    method FailActiveCalls(ghost m: Channel)
      requires Represents(m)
      modifies this`activeCalls, this`activeStreamingCalls, this`runningCalls, this`completed, this`toldToFail
      ensures Represents(m.FailActive())
    {
      FailCalls(Calls(activeCalls), SHUT_DOWN);
      toldToFail := AnswerAll(toldToFail, Calls(activeStreamingCalls), SHUT_DOWN);
      activeCalls, activeStreamingCalls := map[], map[];
    }

    /** The part of DoShutdown before queued calls are failed. */
    method CloseDown(ghost m: Channel)
      requires Represents(m) && Distinct(connectWaiters)
      modifies this
      ensures Represents(m.CloseDown()) && pendingCalls == old(pendingCalls)
    {
      state := Shutdown;
      connectingSession, session := false, false;
      var waiters := connectWaiters;
      connectWaiters := [];
      connected := Notify(connected, waiters, SHUT_DOWN);
      FailActiveCalls(m.(state := Shutdown, session := false, connecting := false, waiters := m.waiters.SettleQueue(SHUT_DOWN)));
    }

    method DoShutdown(ghost m: Channel)
      requires Represents(m) && Distinct(pendingCalls) && Distinct(connectWaiters)
      modifies this
      ensures Represents(m.DoShutdown())
    {
      if state == Shutdown { return; }
      CloseDown(m);
      FailAll(m.CloseDown(), SHUT_DOWN);
    }

    method CallDone(ghost m: Channel, id: Id, status: Status)
      requires Represents(m)
      modifies this
      ensures Represents(m.CallDone(id, status))
    {
      FailCalls({id}, status);
    }

    /** The on_close of stream `k`, which was opened for `id`. */
    method OnClose(ghost m: Channel, k: StreamId, id: Id, status: Failure)
      requires Represents(m) && k in m.unary.ever && m.unary.ever[k] == id && k !in m.streaming.active
      modifies this
      ensures Represents(m.StreamClosed(k, status))
    {
      activeCalls := activeCalls - {k};
      FailCalls({id}, status);
    }
  }
}
