/**
 What a unary call ends with: for each event that meets a call without a result, over
 every run before it, the result it posts, or that it posts none.
*/
module UnaryOutcome {
  import opened Bytes
  import opened Statuses
  import opened Lpm
  import opened Decoder
  import opened Metadata
  import opened SendQueue
  import opened ParserAgreement
  import opened UnaryCall

  /** A response head has been accepted, and nothing posted. */
  predicate Listening(max: nat, events: seq<Event>) {
    OneHead(max, events) && RunOf(max, events).listening && RunOf(max, events).posted == []
  }

  lemma Before(max: nat, events: seq<Event>, e: Event)
    requires OneHead(max, events)
    ensures RunOf(max, events + [e]) == Step(RunOf(max, events), e)
    ensures Inv(RunOf(max, events)) && RunOf(max, events).max == max
    ensures !SecondHead(RunOf(max, events), e) ==> OneHead(max, events + [e])
  {
    assert (events + [e])[..|events + [e]| - 1] == events;
    RunKeepsInv(max, events);
  }

  /** The one result is a failure with `code`. */
  predicate FailsWith(c: Call, code: nat) {
    |c.posted| == 1 && c.posted[0].status.code == code && !c.posted[0].hasResponse
  }

  /** The one result is `status`, without a response. */
  predicate EndsWith(c: Call, status: Status) {
    |c.posted| == 1 && c.posted[0].status == status && !c.posted[0].hasResponse
  }

  /**
   The status that a close without trailers leaves, by its HTTP/2 error code: UNKNOWN after
   a clean close, UNAVAILABLE after a refused stream, CANCELLED, UNIMPLEMENTED when HTTP/1.1
   is required, RESOURCE_EXHAUSTED for four codes, and INTERNAL for all others.
  */
  predicate ClosesWith(error: nat, status: Status) {
    && status.code == (if error == 0 then 2 else if error == 7 then 14 else if error == 8 then 1 else if error == 13 then 12
                       else if error == 6 || 9 <= error <= 11 then 8 else 13)
    && (error == 0 ==> status.message == Text("missing grpc-status"))
  }

  /** The code for the HTTP status of a response that is refused. */
  function HttpTable(http: nat): nat {
    if http == 400 then 13 else if http == 401 then 16 else if http == 403 then 7 else if http == 404 then 12
    else if http == 429 || 502 <= http <= 504 then 14 else 2
  }

  // ----- The response head -----

  lemma HeadOutcome(max: nat, events: seq<Event>, head: Head)
    requires OneHead(max, events) && !RunOf(max, events).attached && RunOf(max, events).posted == []
    ensures var c := RunOf(max, events + [Attach(head)]);
            if !head.isGrpc || head.http != 200 then FailsWith(c, HttpTable(head.http))
            else if head.encoding == Unknown then FailsWith(c, 12)
            else if Find(head.headers, "grpc-status").Some? then EndsWith(c, TrailerStatus(head.headers))
            else Listening(max, events + [Attach(head)]) && c.fed == [] && (c.gzip <==> head.encoding == Gzip)
  {
    Before(max, events, Attach(head));
  }

  // ----- DATA -----

  /**
   DATA keeps the call going while it may be one message. Otherwise the call fails:
   RESOURCE_EXHAUSTED exactly when that message is too large, INTERNAL when it is
   malformed or not the only one.
  */
  lemma DataOutcome(max: nat, events: seq<Event>, chunk: bytes)
    requires Listening(max, events) && chunk != []
    ensures var c, c' := RunOf(max, events), RunOf(max, events + [Data(chunk)]);
            var p := Parse(Limits(max, true), c.fed + chunk);
            && c'.fed == c.fed + chunk && c'.gzip == c.gzip && c'.attached
            && if OneMessageAtMost(p) then Listening(max, events + [Data(chunk)])
               else FailsWith(c', if p.messages == [] && p.verdict == TooLarge then 8 else 13)
  {
    Before(max, events, Data(chunk));
    var c := RunOf(max, events);
    DecodeSplits(max, c.fed, chunk);
    ErrorByParse(max, c.fed + chunk);
  }

  /** The end of DATA is an error unless there was none, or exactly one acceptable frame. */
  lemma DataEndOutcome(max: nat, events: seq<Event>)
    requires Listening(max, events)
    ensures var c, c' := RunOf(max, events), RunOf(max, events + [Data([])]);
            && c'.fed == c.fed && c'.gzip == c.gzip
            && if c.fed == [] || OneFrame(max, c.fed) then Listening(max, events + [Data([])]) else FailsWith(c', 13)
  {
    Before(max, events, Data([]));
    var c := RunOf(max, events);
    EosVerdict(max, c.fed);
    assert c.fed + [] == c.fed;
    ErrorByParse(max, c.fed);
    LimitIsAnError(max, c.fed);
  }

  lemma LimitIsAnError(max: nat, s: bytes)
    ensures Decode(max, s).limitExceeded ==> Decode(max, s).state == Error
  {}

  // ----- Trailers -----

  /** The message the octets hold is marked as compressed, and the call's encoding is not identity. */
  predicate Compressed(c: Call) {
    c.gzip && HEADER_SIZE <= |c.fed| && c.fed[0] != 0
  }

  /**
   Trailers that meet a call without a result give it exactly one. It has their status,
   unless that is OK and decompression fails, which is INTERNAL. With an OK status it has
   a response if and only if the DATA was one acceptable frame; the response is that
   frame's payload, or what it decompresses to.
  */
  lemma TrailersOutcome(max: nat, events: seq<Event>, trailers: seq<Entry>, inflated: Option<bytes>)
    requires Listening(max, events)
    ensures var c, c', status := RunOf(max, events), RunOf(max, events + [OnTrailers(trailers, inflated)]), TrailerStatus(trailers);
            if !status.Ok() then EndsWith(c', status)
            else if Compressed(c) && inflated.None? then FailsWith(c', 13)
            else
              && |c'.posted| == 1 && c'.posted[0].status == status
              && (c'.posted[0].hasResponse <==> OneFrame(max, c.fed))
              && (Compressed(c) ==> c'.posted[0].response == inflated.value)
              && (forall f: Frame | Acceptable(Limits(max, true), f) && c.fed == Encoding(f) && !Compressed(c) ::
                    c'.posted[0].response == f.payload)
  {
    Before(max, events, OnTrailers(trailers, inflated));
    var c := RunOf(max, events);
    FlagIsFirst(max, c.fed);
    DoneMeansOneFrame(max, c.fed);
    forall f: Frame | Acceptable(Limits(max, true), f) && c.fed == Encoding(f) ensures c.decoder.payload == f.payload {
      FrameIsDone(max, f);
    }
  }

  lemma FlagIsFirst(max: nat, s: bytes)
    ensures Decode(max, s).flag != 0 <==> HEADER_SIZE <= |s| && s[0] != 0
  {}

  // ----- The other ends -----

  /** A stream that closes before the trailers fails the call, by its error code. */
  lemma CloseOutcome(max: nat, events: seq<Event>, error: nat)
    requires OneHead(max, events) && RunOf(max, events).posted == []
    ensures var c := RunOf(max, events + [Close(error)]);
            |c.posted| == 1 && !c.posted[0].hasResponse && ClosesWith(error, c.posted[0].status)
  {
    Before(max, events, Close(error));
  }

  lemma LocalOutcome(max: nat, events: seq<Event>, failure: Failure)
    requires OneHead(max, events) && RunOf(max, events).posted == []
    ensures FailsWith(RunOf(max, events + [Deadline]), 4)
    ensures FailsWith(RunOf(max, events + [Cancel]), 1)
    ensures EndsWith(RunOf(max, events + [Fail(failure)]), failure)
  {
    Before(max, events, Deadline);
    Before(max, events, Cancel);
    Before(max, events, Fail(failure));
  }

  // ----- A whole call -----

  function AllData(chunks: seq<bytes>): seq<Event> {
    seq(|chunks|, i requires 0 <= i < |chunks| => Data(chunks[i]))
  }

  predicate Welcome(head: Head) {
    head.isGrpc && head.http == 200 && head.encoding == Identity && Find(head.headers, "grpc-status").None?
  }

  /** The events of a call up to some point of its DATA. */
  function Opening(head: Head, chunks: seq<bytes>): seq<Event> {
    [Attach(head)] + AllData(chunks)
  }

  lemma {:induction false} DataIsHeard(max: nat, head: Head, chunks: seq<bytes>, later: bytes)
    requires Welcome(head) && OneFrame(max, Concat(chunks) + later) && (forall chunk <- chunks :: chunk != [])
    ensures Listening(max, Opening(head, chunks))
    ensures var c := RunOf(max, Opening(head, chunks)); c.fed == Concat(chunks) && !c.gzip
  {
    if chunks == [] {
      HeadOutcome(max, [], head);
      assert Opening(head, chunks) == [] + [Attach(head)];
    } else {
      var front, last := chunks[..|chunks| - 1], chunks[|chunks| - 1];
      assert chunks == front + [last];
      assert last in chunks && forall chunk <- front :: chunk in chunks;
      ConcatAppend(front, last);
      assert Concat(front) + (last + later) == Concat(front) + last + later == Concat(chunks) + later;
      DataIsHeard(max, head, front, last + later);
      ChunkIsHeard(max, Opening(head, front), last, later);
      assert Opening(head, chunks) == Opening(head, front) + [Data(last)];
    }
  }

  lemma ChunkIsHeard(max: nat, events: seq<Event>, chunk: bytes, later: bytes)
    requires Listening(max, events) && chunk != [] && OneFrame(max, RunOf(max, events).fed + chunk + later)
    ensures var c, c' := RunOf(max, events), RunOf(max, events + [Data(chunk)]);
            Listening(max, events + [Data(chunk)]) && c'.fed == c.fed + chunk && c'.gzip == c.gzip
  {
    DataOutcome(max, events, chunk);
    PrefixIsFine(max, RunOf(max, events).fed + chunk, later);
  }

  /**
   A call whose head is welcome, whose DATA is one acceptable frame however it is cut,
   and whose trailers say OK, succeeds with that frame's payload.
  */
  lemma CallSucceeds(max: nat, head: Head, chunks: seq<bytes>, f: Frame, trailers: seq<Entry>, inflated: Option<bytes>)
    requires Welcome(head) && Acceptable(Limits(max, true), f) && Concat(chunks) == Encoding(f)
    requires (forall chunk <- chunks :: chunk != []) && TrailerStatus(trailers).Ok()
    ensures RunOf(max, Opening(head, chunks) + [OnTrailers(trailers, inflated)]).posted
            == [Result(TrailerStatus(trailers), true, f.payload)]
  {
    assert Concat(chunks) + [] == Encoding(f);
    assert OneFrame(max, Encoding(f));
    DataIsHeard(max, head, chunks, []);
    TrailersOutcome(max, Opening(head, chunks), trailers, inflated);
  }
}
