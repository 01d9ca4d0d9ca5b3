/**
 Which messages of a request stream are sent: what Enqueue accepts is queued by a task
 posted to the strand, and the generator's end is final.
*/
module RequestEnd {
  import opened Bytes
  import opened Lpm
  import opened ClientWriter
  import opened RequestPipe

  /**
   What the generator ended with stays final: a message that Enqueue accepts
   later, although it returns OK, never changes what is sent.
  */
  lemma {:induction false} EndIsFinal(lim: Limits, gated: bool, events: seq<Event>, k: nat)
    requires k <= |events| && RunOf(lim, gated, events[..k]).s.eof
    ensures var early, late := RunOf(lim, gated, events[..k]), RunOf(lim, gated, events);
            late.s.eof && late.s.whole == early.s.whole && late.s.sent == early.s.sent
    decreases |events|
  {
    if k < |events| {
      assert events[..|events| - 1][..k] == events[..k];
      EndIsFinal(lim, gated, events[..|events| - 1], k);
      SendKeepsInv(RunOf(lim, gated, events[..|events| - 1]).s, events[|events| - 1]);
    } else {
      assert events[..k] == events;
    }
  }

  // ----- Which messages make it -----

  /** The i-th accepted message was queued at some moment before the generator's end. */
  ghost predicate QueuedInTime(lim: Limits, gated: bool, events: seq<Event>, i: nat) {
    exists k | 0 <= k <= |events| ::
      var s := RunOf(lim, gated, events[..k]).s;
      !s.eof && i < |s.queued|
  }

  /**
   An accepted message is among those sent if and only if the task that queues it ran
   before the generator's end.
  */
  lemma SentIffQueuedInTime(lim: Limits, gated: bool, events: seq<Event>, i: nat)
    requires RunOf(lim, gated, events).s.eof && i < |RunOf(lim, gated, events).s.accepted|
    ensures var s := RunOf(lim, gated, events).s;
            && s.whole <= s.queued <= s.accepted
            && (i < |s.whole| <==> QueuedInTime(lim, gated, events, i))
    decreases |events|
  {
    RunKeepsInv(lim, gated, events);
    var k := EndOf(lim, gated, events);
    WholeAtEnd(lim, gated, events, k);
    var whole := RunOf(lim, gated, events).s.whole;
    if i < |whole| {
      assert QueuedInTime(lim, gated, events, i);
    }
    forall j | 0 <= j <= |events| && !RunOf(lim, gated, events[..j]).s.eof
      ensures |RunOf(lim, gated, events[..j]).s.queued| <= |whole|
    {
      QueuedBeforeEnd(lim, gated, events, j, k);
    }
  }

  /** One step of the client within a run. */
  lemma LastStep(lim: Limits, gated: bool, events: seq<Event>)
    requires events != []
    ensures var before := RunOf(lim, gated, events[..|events| - 1]).s;
            SenderInv(before) && RunOf(lim, gated, events).s == Send(before, events[|events| - 1])
  {}

  /** The queue of messages only grows, and the step that ends the stream ends it with that queue. */
  lemma QueuedStep(s: Sender, e: Event)
    requires SenderInv(s)
    ensures |s.queued| <= |Send(s, e).queued|
    ensures !s.eof && Send(s, e).eof ==> Send(s, e).whole == s.queued
  {}

  /** Whether the stream has ended, after each prefix of a history. */
  function Ended(lim: Limits, gated: bool, events: seq<Event>): (bs: seq<bool>)
    ensures |bs| == |events| + 1
  {
    seq(|events| + 1, i requires 0 <= i <= |events| => RunOf(lim, gated, events[..i]).s.eof)
  }

  lemma EndedAtBounds(lim: Limits, gated: bool, events: seq<Event>)
    ensures !Ended(lim, gated, events)[0]
    ensures Ended(lim, gated, events)[|events|] == RunOf(lim, gated, events).s.eof
  {
    assert events[..0] == [];
    assert events[..|events|] == events;
  }

  /** The event with which the generator ends. */
  lemma EndOf(lim: Limits, gated: bool, events: seq<Event>) returns (k: nat)
    requires RunOf(lim, gated, events).s.eof
    ensures k < |events| && !Ended(lim, gated, events)[k] && Ended(lim, gated, events)[k + 1]
  {
    EndedAtBounds(lim, gated, events);
    k := Switch(Ended(lim, gated, events), |events|);
  }

  lemma {:induction false} Switch(bs: seq<bool>, n: nat) returns (k: nat)
    requires n < |bs| && !bs[0] && bs[n]
    ensures k < n && !bs[k] && bs[k + 1]
    decreases n
  {
    k := n - 1;
    if bs[n - 1] {
      k := Switch(bs, n - 1);
    }
  }

  /** The stream ends with the messages queued just before. */
  lemma WholeAtEnd(lim: Limits, gated: bool, events: seq<Event>, k: nat)
    requires k < |events| && !RunOf(lim, gated, events[..k]).s.eof && RunOf(lim, gated, events[..k + 1]).s.eof
    ensures RunOf(lim, gated, events).s.whole == RunOf(lim, gated, events[..k]).s.queued
  {
    var upTo := events[..k + 1];
    assert upTo[..k] == events[..k];
    LastStep(lim, gated, upTo);
    QueuedStep(RunOf(lim, gated, events[..k]).s, events[k]);
    EndIsFinal(lim, gated, events, k + 1);
  }

  lemma QueuedBeforeEnd(lim: Limits, gated: bool, events: seq<Event>, j: nat, k: nat)
    requires j <= |events| && k < |events| && !RunOf(lim, gated, events[..j]).s.eof && RunOf(lim, gated, events[..k + 1]).s.eof
    ensures |RunOf(lim, gated, events[..j]).s.queued| <= |RunOf(lim, gated, events[..k]).s.queued|
  {
    if k + 1 <= j {
      assert events[..j][..k + 1] == events[..k + 1];
      EndIsFinal(lim, gated, events[..j], k + 1);
    } else {
      assert events[..k][..j] == events[..j];
      QueuedGrows(lim, gated, events[..k], j);
    }
  }

  lemma {:induction false} QueuedGrows(lim: Limits, gated: bool, events: seq<Event>, j: nat)
    requires j <= |events|
    ensures |RunOf(lim, gated, events[..j]).s.queued| <= |RunOf(lim, gated, events).s.queued|
    decreases |events|
  {
    if j < |events| {
      var front := events[..|events| - 1];
      assert front[..j] == events[..j];
      LastStep(lim, gated, events);
      QueuedGrows(lim, gated, front, j);
      QueuedStep(RunOf(lim, gated, front).s, events[|events| - 1]);
    } else {
      assert events[..j] == events;
    }
  }

  // ----- What a caller may rely on -----

  /** All tasks queue messages: the caller has not said that its writes are done. */
  predicate OnlyAppends(tasks: seq<Task>) {
    forall i | 0 <= i < |tasks| :: tasks[i].Append?
  }

  lemma {:induction false} EachAppendCounts(tasks: seq<Task>)
    ensures |Posted(tasks)| <= |tasks|
    ensures OnlyAppends(tasks) ==> |Posted(tasks)| == |tasks|
  {
    if tasks != [] {
      EachAppendCounts(tasks[1..]);
    }
  }

  /**
   The messages `early` are queued, or their tasks run before any that ends the
   writes; and an end includes them all.
  */
  predicate WillBeSent(s: Sender, early: seq<bytes>) {
    && early <= s.accepted
    && (|s.queued| < |early| ==>
          !s.writer.writesDone && !s.eof
          && |early| - |s.queued| <= |s.tasks| && OnlyAppends(s.tasks[..|early| - |s.queued|]))
    && (s.eof ==> early <= s.whole)
  }

  lemma StepKeepsPromise(s: Sender, e: Event, early: seq<bytes>)
    requires SenderInv(s) && WillBeSent(s, early)
    ensures WillBeSent(Send(s, e), early)
  {
    SendKeepsInv(s, e);
    match e
    case RunTask => if s.tasks != [] { RunTaskKeepsPromise(s, early); }
    case Pull(len) =>
      if s.writer.queue.pending == [] && s.writer.writesDone { assert early <= s.queued; }
    case _ =>
      var missing := |early| - |s.queued|;
      if missing > 0 {
        assert Send(s, e).tasks[..missing] == s.tasks[..missing];
      }
  }

  lemma RunTaskKeepsPromise(s: Sender, early: seq<bytes>)
    requires SenderInv(s) && WillBeSent(s, early) && s.tasks != []
    ensures WillBeSent(Send(s, RunTask), early)
  {
    SendKeepsInv(s, RunTask);
    var missing := |early| - |s.queued|;
    if missing > 0 {
      assert s.tasks[..missing][0].Append?;
      assert s.tasks[1..][..missing - 1] == s.tasks[..missing][1..];
    }
  }

  lemma StaysOpen(s: Sender, e: Event)
    requires SenderInv(s) && !s.writer.writesDone && !s.eof && OnlyAppends(s.tasks) && !e.WritesDone?
    ensures var s' := Send(s, e); !s'.writer.writesDone && !s'.eof && OnlyAppends(s'.tasks)
  {}

  /** Before the caller says that its writes are done, nothing has ended. */
  lemma {:induction false} OpenSoFar(lim: Limits, gated: bool, events: seq<Event>)
    requires forall i | 0 <= i < |events| :: !events[i].WritesDone?
    ensures var s := RunOf(lim, gated, events).s;
            !s.writer.writesDone && !s.eof && OnlyAppends(s.tasks)
  {
    if events != [] {
      LastStep(lim, gated, events);
      OpenSoFar(lim, gated, events[..|events| - 1]);
      StaysOpen(RunOf(lim, gated, events[..|events| - 1]).s, events[|events| - 1]);
    }
  }

  /**
   What Enqueue accepted before the first MarkWritesDone is sent: it is part of
   every end of the stream, whatever happens in between and afterwards.
  */
  lemma {:induction false} AcceptedBeforeWritesDoneIsSent(lim: Limits, gated: bool, events: seq<Event>, k: nat)
    requires k <= |events| && forall i | 0 <= i < k :: !events[i].WritesDone?
    ensures WillBeSent(RunOf(lim, gated, events).s, RunOf(lim, gated, events[..k]).s.accepted)
    ensures RunOf(lim, gated, events).s.eof ==> RunOf(lim, gated, events[..k]).s.accepted <= RunOf(lim, gated, events).s.whole
    decreases |events|
  {
    RunKeepsInv(lim, gated, events);
    if k < |events| {
      var front := events[..|events| - 1];
      assert front[..k] == events[..k];
      AcceptedBeforeWritesDoneIsSent(lim, gated, front, k);
      RunKeepsInv(lim, gated, front);
      StepKeepsPromise(RunOf(lim, gated, front).s, events[|events| - 1], RunOf(lim, gated, events[..k]).s.accepted);
    } else {
      assert events[..k] == events;
      OpenSoFar(lim, gated, events);
      var s := RunOf(lim, gated, events).s;
      EachAppendCounts(s.tasks);
    }
  }

  /** After it, a message may be accepted and lost: here the stream has ended before. */
  lemma AcceptedTooLate(lim: Limits, gated: bool, m: bytes)
    requires |m| <= MAX_PAYLOAD
    ensures var s := RunOf(lim, gated, [WritesDone, RunTask, Pull(1), Enqueue(m)]).s;
            s.eof && s.accepted == [m] && s.whole == [] && s.sent == []
  {
    var e0: seq<Event>, e1, e2, e3 := [], [WritesDone], [WritesDone, RunTask], [WritesDone, RunTask, Pull(1)];
    var e4 := [WritesDone, RunTask, Pull(1), Enqueue(m)];
    assert e1[..0] == e0 && e2[..1] == e1 && e3[..2] == e2 && e4[..3] == e3;
    LastStep(lim, gated, e1);
    LastStep(lim, gated, e2);
    LastStep(lim, gated, e3);
    LastStep(lim, gated, e4);
    assert RunOf(lim, gated, e0) == Start(lim, gated);
    var s1, s2, s3 := EndedAtOnce(Start(lim, gated).s);
    LateEnqueue(s3, m);
  }

  lemma LateEnqueue(s: Sender, m: bytes)
    requires SenderInv(s) && |m| <= MAX_PAYLOAD && s.accepted == []
    ensures Send(s, Enqueue(m)) == s.(accepted := [m], tasks := s.tasks + [Append(m)])
  {
    assert [] + [m] == [m];
  }

  lemma EndedAtOnce(s0: Sender) returns (s1: Sender, s2: Sender, s3: Sender)
    requires SenderInv(s0) && s0 == Sender([], [], [], NEW_WRITER, [], false, [])
    ensures SenderInv(s1) && s1 == Send(s0, WritesDone)
    ensures SenderInv(s2) && s2 == Send(s1, RunTask)
    ensures SenderInv(s3) && s3 == Send(s2, Pull(1))
    ensures s3.eof && s3.accepted == [] && s3.whole == [] && s3.sent == []
  {
    s1 := Send(s0, WritesDone);
    SendKeepsInv(s0, WritesDone);
    assert s1.tasks == [Task.Finish];
    s2 := FinishRuns(s1);
    s3 := EmptyPull(s2);
  }

  lemma FinishRuns(s: Sender) returns (s': Sender)
    requires SenderInv(s) && s.tasks == [Task.Finish]
    ensures s' == Send(s, RunTask) == s.(tasks := [], writer := s.writer.Finish()) && SenderInv(s')
  {
    s' := Send(s, RunTask);
    SendKeepsInv(s, RunTask);
    assert s.tasks[1..] == [];
  }

  lemma EmptyPull(s: Sender) returns (s': Sender)
    requires SenderInv(s) && s.writer.queue.pending == [] && s.writer.writesDone && !s.eof
    ensures s' == Send(s, Pull(1)) == s.(eof := true, whole := s.queued) && SenderInv(s')
  {
    s' := Send(s, Pull(1));
    SendKeepsInv(s, Pull(1));
  }
}
