/**
 The request stream makes progress: what a client enqueued is read, and then the end is,
 once the strand, the transport and the handler have had enough turns.
*/
module RequestProgress {
  import opened Bytes
  import opened Statuses
  import opened Lpm
  import opened Incremental
  import opened SendQueue
  import opened Receiving
  import opened RequestPipe
  import R = RequestEnd
  import StreamQueue

  lemma LastStep(lim: Limits, gated: bool, events: seq<Event>, e: Event)
    ensures var before, after := RunOf(lim, gated, events), RunOf(lim, gated, events + [e]);
            && SenderInv(before.s) && Sound(before.r, before.s) && before.r.gated == gated && before.r.input.lim == lim
            && CanStep(before) && after == Step(before, e)
  {
    assert (events + [e])[..|events + [e]| - 1] == events;
    RunKeepsInv(lim, gated, events);
  }

  /** The client's part of it. */
  lemma LastSend(lim: Limits, gated: bool, events: seq<Event>, e: Event)
    ensures var before, after := RunOf(lim, gated, events).s, RunOf(lim, gated, events + [e]).s;
            SenderInv(before) && after == Send(before, e)
  {
    LastStep(lim, gated, events, e);
  }

  // ----- What single calls do -----

  /** Enqueue accepts exactly the messages that can be framed, and leaves all else as it is. */
  lemma EnqueueOutcome(lim: Limits, gated: bool, events: seq<Event>, m: bytes)
    ensures var before, after := RunOf(lim, gated, events), RunOf(lim, gated, events + [Enqueue(m)]);
            && after.r == before.r
            && after.s.accepted == (if |m| <= MAX_PAYLOAD then before.s.accepted + [m] else before.s.accepted)
            && (|m| > MAX_PAYLOAD ==> after == before)
            && after.s.queued == before.s.queued && after.s.sent == before.s.sent && after.s.eof == before.s.eof
  {
    LastStep(lim, gated, events, Enqueue(m));
  }

  /** The half-close reaches the reader, unless a call that stops at its response has responded. */
  predicate HalfCloseTold(r: Receiver) {
    r.halfClosed && (!r.gated || !r.responded) ==> r.input.reader.queue.eos
  }

  lemma TakeKeepsTold(r: Receiver, s: Sender, e: Event)
    requires r.input.parser.WellFormed() && r.delivered <= |s.sent| && HalfCloseTold(r)
    ensures HalfCloseTold(Take(r, s, e))
  {
    if e.Deliver? {
      var end := WhereItEnds(r, s, e.n);
      if Take(r, s, e) != r {
        var chunk := s.sent[r.delivered..end];
        StreamQueue.PushAllAppends(r.input.reader.queue, Resume(r.input.lim, r.input.parser, chunk).messages);
      }
    }
  }

  /** Over all runs: once the half-close was delivered to a call that listens, the reader's queue has its end. */
  lemma {:induction false} HalfCloseReachesReader(lim: Limits, gated: bool, events: seq<Event>)
    ensures var r := RunOf(lim, gated, events).r;
            r.halfClosed && (!gated || !r.responded) ==> r.input.reader.queue.eos
    ensures HalfCloseTold(RunOf(lim, gated, events).r) && RunOf(lim, gated, events).r.gated == gated
  {
    RunKeepsInv(lim, gated, events);
    if events != [] {
      var front := events[..|events| - 1];
      HalfCloseReachesReader(lim, gated, front);
      TakeKeepsTold(RunOf(lim, gated, front).r, RunOf(lim, gated, front).s, events[|events| - 1]);
    }
  }

  /** And then, without an error, all that was queued by the generator's end was read or waits to be. */
  lemma NothingIsLost(lim: Limits, gated: bool, events: seq<Event>)
    requires var r := RunOf(lim, gated, events).r;
             r.halfClosed && (!gated || !r.responded) && r.input.reader.queue.error.None?
    ensures var p := RunOf(lim, gated, events);
            var reader := p.r.input.reader;
            && p.s.eof && reader.queue.eos
            && StreamQueue.Messages(reader.results) + reader.queue.buffer == p.s.whole
  {
    HalfCloseReachesReader(lim, gated, events);
    RequestPipe.NothingIsLost(lim, gated, events);
    RunKeepsInv(lim, gated, events);
  }

  /** A response, an abort or a refusal is final, and from then on a client-streaming call takes no request data. */
  lemma RespondedIsDeaf(lim: Limits, gated: bool, events: seq<Event>, e: Event)
    ensures var r, r' := RunOf(lim, gated, events).r, RunOf(lim, gated, events + [e]).r;
            && (r.responded || e.Respond? || e.Abort? ==> r'.responded)
            && (gated && r.responded && (e.Deliver? || e.DeliverEnd?) ==> r'.input == r.input)
            && (e.Respond? ==> r'.input == r.input)
  {
    HalfCloseReachesReader(lim, gated, events);
    LastStep(lim, gated, events, e);
    var p := RunOf(lim, gated, events);
    TakeOfResponded(p.r, p.s, e);
  }

  lemma TakeOfResponded(r: Receiver, s: Sender, e: Event)
    requires r.input.parser.WellFormed() && r.delivered <= |s.sent|
    ensures var r' := Take(r, s, e);
            && (r.responded || e.Respond? || e.Abort? ==> r'.responded)
            && (r.gated && r.responded && (e.Deliver? || e.DeliverEnd?) ==> r'.input == r.input)
            && (e.Respond? ==> r'.input == r.input)
  {}

  /** An abort wakes the handler's reader with its status. */
  lemma AbortIsTold(lim: Limits, gated: bool, events: seq<Event>, status: Failure)
    ensures var r := RunOf(lim, gated, events + [Abort(status)]).r;
            r.input.reader.queue.error == Some(status) && !r.input.reader.queue.waiting && r.responded
  {
    LastStep(lim, gated, events, Abort(status));
    TakeOfAbort(RunOf(lim, gated, events).r, RunOf(lim, gated, events).s, status);
  }

  lemma TakeOfAbort(r: Receiver, s: Sender, status: Failure)
    requires r.input.parser.WellFormed() && r.delivered <= |s.sent|
    ensures var r' := Take(r, s, Abort(status));
            r'.input.reader.queue.error == Some(status) && !r'.input.reader.queue.waiting && r'.responded
  {}

  /** The delivery with which a message is refused ends the reader with the refusal's status. */
  lemma RefusalIsTold(lim: Limits, gated: bool, events: seq<Event>, n: nat)
    requires RunOf(lim, gated, events).r.input.verdict == Clean
    ensures var r := RunOf(lim, gated, events + [Deliver(n)]).r;
            r.input.verdict != Clean ==>
              r.responded && r.input.reader.queue.error.Some?
              && r.input.reader.queue.error.value.code == (if r.input.verdict == TooLarge then RESOURCE_EXHAUSTED else INVALID_ARGUMENT)
  {
    LastStep(lim, gated, events, Deliver(n));
    var before := RunOf(lim, gated, events);
    var end := WhereItEnds(before.r, before.s, n);
    if Take(before.r, before.s, Deliver(n)) != before.r {
      Refusal(before.r, before.s.sent[before.r.delivered..end]);
    }
  }

  lemma Refusal(r: Receiver, chunk: bytes)
    requires r.input.parser.WellFormed() && r.input.verdict == Clean && chunk != []
    ensures var r' := OnData(r, chunk);
            r'.input.verdict != Clean ==>
              r'.responded && r'.input.reader.queue.error.Some?
              && r'.input.reader.queue.error.value.code == (if r'.input.verdict == TooLarge then RESOURCE_EXHAUSTED else INVALID_ARGUMENT)
  {}

  // ----- Turns -----

  /** An event that neither adds a message nor takes the call from its handler. */
  predicate GoesOn(e: Event) {
    !e.Enqueue? && !e.Respond? && !e.Abort?
  }

  /** The events from the a-th to the b-th. */
  predicate AllGoOn(events: seq<Event>, a: nat, b: nat)
    requires a <= b <= |events|
  {
    forall i | a <= i < b :: GoesOn(events[i])
  }

  /** The turns that the events from the a-th to the b-th give, by what each counts for. */
  function Turns(events: seq<Event>, a: nat, b: nat, weight: Event -> nat): nat
    requires a <= b <= |events|
    decreases b
  {
    if a == b then 0 else Turns(events, a, b - 1, weight) + weight(events[b - 1])
  }

  /** Nobody has responded, aborted or refused, and no message that could be refused is on its way. */
  predicate Quiet(p: Pipe) {
    && AllWithin(p.r.input.lim, p.s)
    && p.r.input.verdict == Clean && !p.r.responded && p.r.input.reader.queue.error.None?
  }

  lemma StepStaysQuiet(p: Pipe, e: Event)
    requires Inv(p) && Quiet(p) && GoesOn(e)
    ensures Quiet(Step(p, e))
  {
    CleanStaysClean(p.r, p.s, e);
    TakeKeepsSettings(p.r, p.s, e);
    assert Send(p.s, e).accepted == p.s.accepted;
    NothingIsSaid(p.r, p.s, e);
  }

  lemma NothingIsSaid(r: Receiver, s: Sender, e: Event)
    requires r.input.parser.WellFormed() && r.delivered <= |s.sent| && r.input.verdict == Clean && GoesOn(e)
    requires Take(r, s, e).input.verdict == Clean && !r.responded && r.input.reader.queue.error.None?
    ensures !Take(r, s, e).responded && Take(r, s, e).input.reader.queue.error.None?
  {
    if e.Deliver? {
      var end := WhereItEnds(r, s, e.n);
      if Take(r, s, e) != r {
        var chunk := s.sent[r.delivered..end];
        StreamQueue.PushAllAppends(r.input.reader.queue, Resume(r.input.lim, r.input.parser, chunk).messages);
      }
    }
  }

  // ----- The states of a history -----

  predicate Inv(p: Pipe) {
    SenderInv(p.s) && Sound(p.r, p.s) && CanStep(p) && HalfCloseTold(p.r)
  }

  predicate Next(p: Pipe, e: Event, p': Pipe) {
    Inv(p) && Inv(p') && p' == Step(p, e)
  }

  /** The states that a history goes through. */
  ghost predicate Follows(states: seq<Pipe>, events: seq<Event>) {
    |states| == |events| + 1 && forall i: nat | i < |events| :: NextAt(states, events, i)
  }

  predicate NextAt(states: seq<Pipe>, events: seq<Event>, i: nat)
    requires i < |events| && |states| == |events| + 1
  {
    Next(states[i], events[i], states[i + 1])
  }

  /** The states of a run, from the first on. */
  function States(lim: Limits, gated: bool, events: seq<Event>): (states: seq<Pipe>)
    ensures |states| == |events| + 1
    ensures forall k: nat | k <= |events| :: states[k] == RunOf(lim, gated, events[..k])
  {
    seq(|events| + 1, k requires 0 <= k <= |events| => RunOf(lim, gated, events[..k]))
  }

  lemma StatesFollow(lim: Limits, gated: bool, events: seq<Event>)
    ensures Follows(States(lim, gated, events), events)
  {
    var states := States(lim, gated, events);
    forall i: nat | i < |events| ensures NextAt(states, events, i) {
      PrefixStep(lim, gated, events, i);
    }
  }

  lemma PrefixStep(lim: Limits, gated: bool, events: seq<Event>, i: nat)
    requires i < |events|
    ensures Next(RunOf(lim, gated, events[..i]), events[i], RunOf(lim, gated, events[..i + 1]))
  {
    var front := events[..i];
    assert events[..i + 1] == front + [events[i]];
    LastStep(lim, gated, front, events[i]);
    RunIsInv(lim, gated, front);
    RunIsInv(lim, gated, events[..i + 1]);
  }

  lemma RunIsInv(lim: Limits, gated: bool, events: seq<Event>)
    ensures Inv(RunOf(lim, gated, events))
  {
    RunKeepsInv(lim, gated, events);
    HalfCloseReachesReader(lim, gated, events);
  }

  lemma {:induction false} StaysQuiet(states: seq<Pipe>, events: seq<Event>, a: nat, b: nat)
    requires Follows(states, events) && a <= b <= |events| && AllGoOn(events, a, b) && Quiet(states[a])
    ensures Quiet(states[b])
    decreases b
  {
    if a < b {
      StaysQuiet(states, events, a, b - 1);
      QuietAt(states, events, b - 1);
    }
  }

  lemma QuietAt(states: seq<Pipe>, events: seq<Event>, i: nat)
    requires Follows(states, events) && i < |events| && GoesOn(events[i]) && Quiet(states[i])
    ensures Quiet(states[i + 1])
  {
    assert NextAt(states, events, i);
    StepStaysQuiet(states[i], events[i]);
  }

  // ----- First the strand runs the tasks -----

  function TasksOf(e: Event): nat {
    match e case RunTask => 1 case _ => 0
  }

  function PullsOf(e: Event): nat {
    match e case Pull(len) => if len > 0 then 1 else 0 case _ => 0
  }

  /** How many octets the transport is ready to deliver. */
  function OctetsOf(e: Event): nat {
    match e case Deliver(n) => n case _ => 0
  }

  function EndsOf(e: Event): nat {
    match e case DeliverEnd => 1 case _ => 0
  }

  function ReadsOf(e: Event): nat {
    match e case Read => 1 case _ => 0
  }

  predicate OnlyFinishes(tasks: seq<Task>) {
    forall i | 0 <= i < |tasks| :: tasks[i].Finish?
  }

  /** One of the first n tasks ends the writes. */
  ghost predicate FinishAmong(tasks: seq<Task>, n: int) {
    exists i :: 0 <= i < n && i < |tasks| && tasks[i].Finish?
  }

  /** At most `n` tasks are left that matter, and the end of the writes is said by one of them if it was not before. */
  ghost predicate TasksLeft(s: Sender, n: int) {
    && (forall i | 0 <= i < |s.tasks| && n <= i :: s.tasks[i].Finish?)
    && (s.writer.writesDone || FinishAmong(s.tasks, n))
  }

  lemma TaskTurn(s: Sender, e: Event, n: int)
    requires SenderInv(s) && TasksLeft(s, n) && GoesOn(e)
    ensures TasksLeft(Send(s, e), n - TasksOf(e))
  {
    match e
    case WritesDone =>
      MoreFinishes(s.tasks, n);
    case RunTask =>
      if s.tasks != [] {
        TaskIsDone(s);
        FewerTasks(s.tasks, n);
      }
    case _ =>
  }

  lemma TaskIsDone(s: Sender)
    requires SenderInv(s) && s.tasks != []
    ensures var s' := Send(s, RunTask);
            s'.tasks == s.tasks[1..] && s'.writer.writesDone == (s.writer.writesDone || s.tasks[0].Finish?)
  {}

  lemma MoreFinishes(tasks: seq<Task>, n: int)
    ensures FinishAmong(tasks, n) ==> FinishAmong(tasks + [Task.Finish], n)
  {
    if FinishAmong(tasks, n) {
      var i :| 0 <= i < n && i < |tasks| && tasks[i].Finish?;
      assert (tasks + [Task.Finish])[i].Finish?;
    }
  }

  lemma FewerTasks(tasks: seq<Task>, n: int)
    requires tasks != []
    ensures FinishAmong(tasks, n) && !tasks[0].Finish? ==> FinishAmong(tasks[1..], n - 1)
  {
    if FinishAmong(tasks, n) && !tasks[0].Finish? {
      var i :| 0 <= i < n && i < |tasks| && tasks[i].Finish?;
      assert tasks[1..][i - 1].Finish?;
    }
  }

  lemma AllTasksLeft(s: Sender)
    requires s.writer.writesDone || Task.Finish in s.tasks
    ensures TasksLeft(s, |s.tasks|)
  {
    if Task.Finish in s.tasks {
      var i :| 0 <= i < |s.tasks| && s.tasks[i] == Task.Finish;
      assert s.tasks[i].Finish?;
    }
  }

  lemma {:induction false} TasksRun(states: seq<Pipe>, events: seq<Event>, a: nat, b: nat, left: int)
    requires Follows(states, events) && a <= b <= |events| && AllGoOn(events, a, b) && TasksLeft(states[a].s, left)
    ensures TasksLeft(states[b].s, left - Turns(events, a, b, TasksOf))
    decreases b
  {
    if a < b {
      TasksRun(states, events, a, b - 1, left);
      TasksAt(states, events, b - 1, left - Turns(events, a, b - 1, TasksOf));
    }
  }

  lemma TasksAt(states: seq<Pipe>, events: seq<Event>, i: nat, left: int)
    requires Follows(states, events) && i < |events| && GoesOn(events[i]) && TasksLeft(states[i].s, left)
    ensures TasksLeft(states[i + 1].s, left - TasksOf(events[i]))
  {
    assert NextAt(states, events, i);
    TaskTurn(states[i].s, events[i], left);
  }

  // ----- Then the transport pulls -----

  /** The writes are done, and at most `left` octets remain to be sent, unless the generator has ended. */
  predicate Draining(s: Sender, left: int) {
    s.writer.writesDone && OnlyFinishes(s.tasks) && s.writer.queue.WellFormed() && (s.eof || |s.writer.queue.Remaining()| <= left)
  }

  lemma PullTurn(s: Sender, e: Event, left: int)
    requires SenderInv(s) && Draining(s, left) && GoesOn(e)
    ensures Draining(Send(s, e), left - PullsOf(e))
  {
    SendKeepsInv(s, e);
    match e
    case WritesDone =>
    case RunTask =>
      if s.tasks != [] { TaskIsDone(s); }
    case Pull(len) =>
      EmptyMeansSent(s.writer.queue);
      if s.writer.queue.pending != [] {
        DrainConserves(s.writer.queue, len);
      }
    case _ =>
  }

  lemma {:induction false} PullsDrain(states: seq<Pipe>, events: seq<Event>, a: nat, b: nat, left: int)
    requires Follows(states, events) && a <= b <= |events| && AllGoOn(events, a, b) && Draining(states[a].s, left)
    ensures Draining(states[b].s, left - Turns(events, a, b, PullsOf))
    decreases b
  {
    if a < b {
      PullsDrain(states, events, a, b - 1, left);
      DrainingAt(states, events, b - 1, left - Turns(events, a, b - 1, PullsOf));
    }
  }

  lemma DrainingAt(states: seq<Pipe>, events: seq<Event>, i: nat, left: int)
    requires Follows(states, events) && i < |events| && GoesOn(events[i]) && Draining(states[i].s, left)
    ensures Draining(states[i + 1].s, left - PullsOf(events[i]))
  {
    assert NextAt(states, events, i);
    PullTurn(states[i].s, events[i], left);
  }

  // ----- Then it delivers, and announces the end -----

  predicate Arriving(p: Pipe, left: int) {
    p.s.eof && p.r.delivered <= |p.s.sent| && (p.r.delivered == |p.s.sent| || |p.s.sent| - p.r.delivered <= left)
  }

  lemma DeliveryTurn(p: Pipe, e: Event, left: int)
    requires Inv(p) && Quiet(p) && Arriving(p, left)
    ensures Arriving(Step(p, e), left - OctetsOf(e))
  {
    SendKeepsInv(p.s, e);
    if e.Deliver? {
      var end := WhereItEnds(p.r, p.s, e.n);
      TakenUpTo(p.r, p.s, e.n);
    }
  }

  lemma TakenUpTo(r: Receiver, s: Sender, n: nat)
    requires r.input.parser.WellFormed() && r.delivered <= |s.sent| && (r.halfClosed ==> r.delivered == |s.sent|)
    ensures Take(r, s, Deliver(n)).delivered == r.delivered + Min(n, |s.sent| - r.delivered)
  {}

  lemma ArrivingAt(states: seq<Pipe>, events: seq<Event>, i: nat, left: int)
    requires Follows(states, events) && i < |events|
    requires Quiet(states[i]) && Arriving(states[i], left)
    ensures Arriving(states[i + 1], left - OctetsOf(events[i]))
  {
    assert NextAt(states, events, i);
    DeliveryTurn(states[i], events[i], left);
  }

  lemma {:induction false} AllArrive(states: seq<Pipe>, events: seq<Event>, a: nat, b: nat, left: int)
    requires Follows(states, events) && a <= b <= |events| && AllGoOn(events, a, b)
    requires Quiet(states[a]) && Arriving(states[a], left)
    ensures Arriving(states[b], left - Turns(events, a, b, OctetsOf))
    decreases b
  {
    if a < b {
      AllArrive(states, events, a, b - 1, left);
      StaysQuiet(states, events, a, b - 1);
      ArrivingAt(states, events, b - 1, left - Turns(events, a, b - 1, OctetsOf));
    }
  }

  lemma HalfCloseTurn(r: Receiver, s: Sender, e: Event)
    requires r.input.parser.WellFormed() && r.delivered <= |s.sent|
    ensures r.halfClosed ==> Take(r, s, e).halfClosed
    ensures s.eof && r.delivered == |s.sent| && e.DeliverEnd? ==> Take(r, s, e).halfClosed
  {}

  /** All octets are in, and the half-close too if it had a turn. */
  predicate AllIn(p: Pipe, turns: nat) {
    Arriving(p, 0) && (turns > 0 ==> p.r.halfClosed)
  }

  lemma {:induction false} EndArrives(states: seq<Pipe>, events: seq<Event>, a: nat, b: nat)
    requires Follows(states, events) && a <= b <= |events| && AllGoOn(events, a, b)
    requires Quiet(states[a]) && AllIn(states[a], 0)
    ensures AllIn(states[b], Turns(events, a, b, EndsOf))
    decreases b
  {
    if a < b {
      EndArrives(states, events, a, b - 1);
      StaysQuiet(states, events, a, b - 1);
      AllInAt(states, events, b - 1, Turns(events, a, b - 1, EndsOf));
    }
  }

  lemma AllInAt(states: seq<Pipe>, events: seq<Event>, i: nat, turns: nat)
    requires Follows(states, events) && i < |events| && Quiet(states[i]) && AllIn(states[i], turns)
    ensures AllIn(states[i + 1], turns + EndsOf(events[i]))
  {
    assert NextAt(states, events, i);
    EndTurn(states[i], events[i], turns);
  }

  lemma EndTurn(p: Pipe, e: Event, turns: nat)
    requires Inv(p) && Quiet(p) && AllIn(p, turns)
    ensures AllIn(Step(p, e), turns + EndsOf(e))
  {
    DeliveryTurn(p, e, 0);
    HalfCloseTurn(p.r, p.s, e);
  }

  // ----- Then the handler reads -----

  const END := StreamQueue.PopResult(OK_STATUS, None)

  /** Results come in order as long as there is no error: messages, then the end. */
  lemma {:induction false} ResultsInOrder(lim: Limits, gated: bool, events: seq<Event>)
    ensures RunOf(lim, gated, events).r.input.reader.queue.error.None?
            ==> StreamQueue.Orderly(RunOf(lim, gated, events).r.input.reader, END)
  {
    if events != [] {
      var front, e := events[..|events| - 1], events[|events| - 1];
      assert events == front + [e];
      ResultsInOrder(lim, gated, front);
      LastStep(lim, gated, front, e);
      var p := RunOf(lim, gated, front);
      StepKeepsOrder(p.r, p.s, e);
    }
  }

  lemma StepKeepsOrder(r: Receiver, s: Sender, e: Event)
    requires SenderInv(s) && Sound(r, s)
    requires r.input.reader.queue.error.None? ==> StreamQueue.Orderly(r.input.reader, END)
    ensures Take(r, s, e).input.reader.queue.error.None? ==> StreamQueue.Orderly(Take(r, s, e).input.reader, END)
  {
    match e
    case Read => ReadTurn(r, s);
    case Deliver(n) =>
      var end := WhereItEnds(r, s, n);
      if Take(r, s, e) != r {
        ChunkKeepsOrder(r, s.sent[r.delivered..end]);
      }
    case _ =>
  }

  lemma ReadTurn(r: Receiver, s: Sender)
    requires SenderInv(s) && Sound(r, s)
    requires r.input.reader.queue.error.None? ==> StreamQueue.Orderly(r.input.reader, END)
    ensures var run, run' := r.input.reader, Take(r, s, Read).input.reader;
            && run'.queue.error == run.queue.error && run'.queue.eos == run.queue.eos
            && (run.queue.error.None? ==> StreamQueue.Orderly(run', END))
            && (run.queue.error.None? && run.queue.eos ==> |run'.results| == |run.results| + 1)
  {
    if r.input.reader.queue.error.None? {
      StreamQueue.ReadKeepsOrder(r.input.reader, END);
    }
  }

  lemma ChunkKeepsOrder(r: Receiver, chunk: bytes)
    requires r.input.parser.WellFormed() && chunk != []
    requires r.input.reader.queue.error.None? ==> !r.input.reader.queue.eos
    requires r.input.reader.queue.error.None? ==> StreamQueue.Orderly(r.input.reader, END)
    ensures OnData(r, chunk).input.reader.queue.error.None? ==> StreamQueue.Orderly(OnData(r, chunk).input.reader, END)
  {
    StreamQueue.PushAllAppends(r.input.reader.queue, Resume(r.input.lim, r.input.parser, chunk).messages);
  }

  /** The results of a reader without an error are in order. */
  predicate Reported(p: Pipe) {
    p.r.input.reader.queue.error.None? ==> StreamQueue.Orderly(p.r.input.reader, END)
  }

  predicate AllReported(states: seq<Pipe>) {
    forall i | 0 <= i < |states| :: Reported(states[i])
  }

  lemma ResultsGrow(r: Receiver, s: Sender, e: Event)
    requires r.input.parser.WellFormed() && r.delivered <= |s.sent|
    ensures |Take(r, s, e).input.reader.results| >= |r.input.reader.results|
  {
    if e.Deliver? {
      var end := WhereItEnds(r, s, e.n);
    }
  }

  /** The half-close is in, after an end with the messages `whole`, and at least `n` results are out. */
  predicate Reading(p: Pipe, whole: seq<bytes>, n: nat) {
    p.r.halfClosed && p.s.eof && p.s.whole == whole && |p.r.input.reader.results| >= n
  }

  lemma ReadingTurn(p: Pipe, e: Event, whole: seq<bytes>, n: nat)
    requires Inv(p) && Quiet(p) && GoesOn(e) && Reported(p) && Reading(p, whole, n)
    ensures Reading(Step(p, e), whole, n + ReadsOf(e))
  {
    SendKeepsInv(p.s, e);
    HalfCloseTurn(p.r, p.s, e);
    ResultsGrow(p.r, p.s, e);
    if e.Read? {
      ReadTurn(p.r, p.s);
    }
  }

  lemma {:induction false} ReadsReport(states: seq<Pipe>, events: seq<Event>, a: nat, b: nat, whole: seq<bytes>)
    requires Follows(states, events) && AllReported(states) && a <= b <= |events| && AllGoOn(events, a, b)
    requires Quiet(states[a]) && Reading(states[a], whole, 0)
    ensures Reading(states[b], whole, Turns(events, a, b, ReadsOf))
    decreases b
  {
    if a < b {
      ReadsReport(states, events, a, b - 1, whole);
      StaysQuiet(states, events, a, b - 1);
      ReadingAt(states, events, b - 1, whole, Turns(events, a, b - 1, ReadsOf));
    }
  }

  lemma ReadingAt(states: seq<Pipe>, events: seq<Event>, i: nat, whole: seq<bytes>, n: nat)
    requires Follows(states, events) && i < |events| && GoesOn(events[i])
    requires Reported(states[i]) && Quiet(states[i]) && Reading(states[i], whole, n)
    ensures Reading(states[i + 1], whole, n + ReadsOf(events[i]))
  {
    assert NextAt(states, events, i);
    ReadingTurn(states[i], events[i], whole, n);
  }

  /** Once as many results are out as messages were sent, and one more, they are these messages and then the end. */
  lemma AllIsReported(p: Pipe)
    requires Inv(p) && Reported(p) && Quiet(p) && p.r.halfClosed && |p.r.input.reader.results| > |p.s.whole|
    ensures var results := p.r.input.reader.results;
            && (forall i | 0 <= i < |p.s.whole| :: results[i] == StreamQueue.PopResult(OK_STATUS, Some(p.s.whole[i])))
            && results[|p.s.whole|] == END
  {
    FedIsAPrefix(p.r.input.lim, p.s, p.r.input.fed);
    var read := StreamQueue.Messages(p.r.input.reader.results);
    assert read + p.r.input.reader.queue.buffer == p.s.whole;
    assert |read| <= |p.s.whole|;
    assert p.r.input.reader.queue.buffer == [];
    assert read + [] == read;
  }

  lemma {:induction false} DoneIsSaid(lim: Limits, gated: bool, events: seq<Event>)
    requires exists i :: 0 <= i < |events| && events[i].WritesDone?
    ensures var s := RunOf(lim, gated, events).s; s.writer.writesDone || Task.Finish in s.tasks
  {
    var front, e := events[..|events| - 1], events[|events| - 1];
    assert events == front + [e];
    LastSend(lim, gated, front, e);
    var s := RunOf(lim, gated, front).s;
    if !e.WritesDone? {
      DoneIsSaid(lim, gated, front);
      SaidStaysSaid(s, e);
    }
  }

  lemma SaidStaysSaid(s: Sender, e: Event)
    requires SenderInv(s) && (s.writer.writesDone || Task.Finish in s.tasks)
    ensures Send(s, e).writer.writesDone || Task.Finish in Send(s, e).tasks
  {
    if e.RunTask? && s.tasks != [] {
      TaskIsDone(s);
      assert s.tasks == [s.tasks[0]] + s.tasks[1..];
    }
  }

  /**
   The turns of a history: of the strand up to event b, pulls up to c, deliveries up to
   d, the half-close up to e, and reads after that.
  */
  predicate EnoughTurns(states: seq<Pipe>, events: seq<Event>, a: nat, b: nat, c: nat, d: nat, e: nat)
    requires |states| == |events| + 1 && a <= b <= c <= d <= e <= |events| && states[b].s.writer.queue.WellFormed()
  {
    && Turns(events, a, b, TasksOf) >= |states[a].s.tasks|
    && Turns(events, b, c, PullsOf) > |states[b].s.writer.queue.Remaining()|
    && Turns(events, c, d, OctetsOf) >= |states[c].s.sent|
    && Turns(events, d, e, EndsOf) > 0
    && Turns(events, e, |events|, ReadsOf) > |states[e].s.whole|
  }

  /**
   Progress. A history in which, after `a` events, the client has said that its writes
   are done, no message exceeds the limit and nobody has responded, aborted or refused;
   and nobody enqueues, responds or aborts from then on. After enough turns of the
   strand, pulls, deliveries, the half-close and one more read than messages were sent,
   the handler has been given exactly the messages the generator ended with, in order,
   each with OK, and then the end of the stream. Anything else may happen in between.
  */
  lemma RequestIsRead(lim: Limits, gated: bool, events: seq<Event>, a: nat, b: nat, c: nat, d: nat, e: nat)
    requires a <= b <= c <= d <= e <= |events| && AllGoOn(events, a, |events|)
    requires exists i :: 0 <= i < a && events[i].WritesDone?
    requires var states := States(lim, gated, events); Quiet(states[a]) && EnoughTurns(states, events, a, b, c, d, e)
    ensures var p := RunOf(lim, gated, events);
            var results := p.r.input.reader.results;
            && p.s.eof && |results| > |p.s.whole|
            && (forall i | 0 <= i < |p.s.whole| :: results[i] == StreamQueue.PopResult(OK_STATUS, Some(p.s.whole[i])))
            && results[|p.s.whole|] == StreamQueue.PopResult(OK_STATUS, None)
  {
    var states := States(lim, gated, events);
    Prepare(lim, gated, events, a);
    AllIsRead(states, events, a, b, c, d, e);
    AllIsReported(states[|events|]);
    assert events[..|events|] == events;
  }

  lemma Prepare(lim: Limits, gated: bool, events: seq<Event>, a: nat)
    requires a <= |events| && exists i :: 0 <= i < a && events[i].WritesDone?
    ensures var states := States(lim, gated, events);
            && Follows(states, events) && AllReported(states) && AllInv(states)
            && (states[a].s.writer.writesDone || Task.Finish in states[a].s.tasks)
  {
    var states, early := States(lim, gated, events), events[..a];
    StatesFollow(lim, gated, events);
    var i :| 0 <= i < a && events[i].WritesDone?;
    assert early[i].WritesDone?;
    DoneIsSaid(lim, gated, early);
    forall k | 0 <= k < |states| ensures Reported(states[k]) && Inv(states[k]) {
      ResultsInOrder(lim, gated, events[..k]);
      RunIsInv(lim, gated, events[..k]);
    }
  }

  predicate AllInv(states: seq<Pipe>) {
    forall i | 0 <= i < |states| :: Inv(states[i])
  }

  lemma AllIsRead(states: seq<Pipe>, events: seq<Event>, a: nat, b: nat, c: nat, d: nat, e: nat)
    requires Follows(states, events) && AllReported(states) && AllInv(states)
    requires a <= b <= c <= d <= e <= |events| && AllGoOn(events, a, |events|)
    requires states[a].s.writer.writesDone || Task.Finish in states[a].s.tasks
    requires states[b].s.writer.queue.WellFormed() && Quiet(states[a]) && EnoughTurns(states, events, a, b, c, d, e)
    ensures var p := states[|events|];
            Inv(p) && Reported(p) && Quiet(p) && p.r.halfClosed && p.s.eof && |p.r.input.reader.results| > |p.s.whole|
  {
    SenderEnds(states, events, a, b, c);
    StaysQuiet(states, events, a, c);
    DeliveredSoFar(states[c]);
    EndReaches(states, events, c, d, e);
    ReadsReport(states, events, e, |events|, states[e].s.whole);
    StaysQuiet(states, events, e, |events|);
  }

  lemma DeliveredSoFar(p: Pipe)
    requires Inv(p)
    ensures p.r.delivered <= |p.s.sent|
  {}

  lemma SenderEnds(states: seq<Pipe>, events: seq<Event>, a: nat, b: nat, c: nat)
    requires Follows(states, events) && a <= b <= c <= |events| && AllGoOn(events, a, c)
    requires states[a].s.writer.writesDone || Task.Finish in states[a].s.tasks
    requires states[b].s.writer.queue.WellFormed()
    requires Turns(events, a, b, TasksOf) >= |states[a].s.tasks|
    requires Turns(events, b, c, PullsOf) > |states[b].s.writer.queue.Remaining()|
    ensures states[c].s.eof
  {
    AllTasksLeft(states[a].s);
    TasksRun(states, events, a, b, |states[a].s.tasks|);
    var s := states[b].s;
    PullsDrain(states, events, b, c, |s.writer.queue.Remaining()|);
  }

  lemma EndReaches(states: seq<Pipe>, events: seq<Event>, c: nat, d: nat, e: nat)
    requires Follows(states, events) && c <= d <= e <= |events| && AllGoOn(events, c, e)
    requires Quiet(states[c]) && states[c].s.eof && states[c].r.delivered <= |states[c].s.sent|
    requires Turns(events, c, d, OctetsOf) >= |states[c].s.sent| && Turns(events, d, e, EndsOf) > 0
    ensures Quiet(states[e]) && states[e].r.halfClosed && states[e].s.eof
  {
    AllArrive(states, events, c, d, |states[c].s.sent|);
    StaysQuiet(states, events, c, d);
    EndArrives(states, events, d, e);
    StaysQuiet(states, events, d, e);
  }
}
