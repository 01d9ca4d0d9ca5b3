/** The receiving half that both ends share: a parser that pushes what it completes into a reader's queue. */
module Receiving {
  import opened Bytes
  import opened Lpm
  import opened Incremental
  import opened StreamQueue

  /** `fed`: the octets given to the parser so far; `verdict`: its first refusal. */
  datatype Reception = Reception(lim: Limits, fed: bytes, parser: Partial, verdict: Verdict, reader: Run) {
    function Receive(chunk: bytes): Reception
      requires parser.WellFormed()
    {
      var o := Resume(lim, parser, chunk);
      Reception(lim, fed + chunk, o.state, if verdict == Clean then o.verdict else verdict,
                PushAll(reader, o.messages))
    }

    function Tell(e: Event): Reception {
      this.(reader := Step(reader, e))
    }

    /** What was pushed, what is held and what was refused are those of the octets fed. */
    predicate Faithful() {
      && parser.WellFormed()
      && Fifo(reader)
      && Scan(lim, fed) == Outcome(reader.pushed, parser, verdict)
    }
  }

  function Fresh(lim: Limits): Reception {
    Reception(lim, [], IDLE, Clean, Run(EMPTY, [], []))
  }

  lemma ReceiveKeepsFaith(r: Reception, chunk: bytes)
    requires r.Faithful() && r.verdict == Clean
    ensures r.Receive(chunk).Faithful()
  {
    ScanIsInStep(r.lim, r.fed);
    ScanSplits(r.lim, r.fed, chunk);
    ResumeIsScan(r.lim, r.parser, chunk);
    ResumeIsWellFormed(r.lim, r.parser, chunk);
    PushAllKeepsFifo(r.reader, Resume(r.lim, r.parser, chunk).messages);
  }

  lemma TellKeepsFaith(r: Reception, e: Event)
    requires r.Faithful() && !e.Push?
    ensures r.Tell(e).Faithful()
  {
    StepKeepsFifo(r.reader, e);
  }
}
