/**
 The three incremental parsers of the program against each other: the server's
 streaming parser (which inspects the flag), the client's (which does not), and the
 one-message decoder, reset at each frame boundary.
*/
module ParserAgreement {
  import opened Bytes
  import opened Lpm
  import Decoder
  import Incremental

  /** On the encoding of any acceptable frames, however it is cut, all three give the messages back. */
  lemma ParsersAgree(max: nat, frames: seq<Frame>, chunks: seq<bytes>, pieces: seq<seq<bytes>>)
    requires AllAcceptable(Limits(max, true), frames) && Concat(chunks) == Wire(frames)
    requires |pieces| == |frames| && forall i | 0 <= i < |frames| :: Concat(pieces[i]) == Encoding(frames[i])
    ensures forall strict :: Incremental.FeedUntilRefused(Limits(max, strict), Incremental.IDLE, chunks)
                             == Incremental.Outcome(Payloads(frames), Incremental.IDLE, Clean)
    ensures forall i | 0 <= i < |frames| ::
              var v := Decoder.FeedAll(max, Decoder.Decode(max, []), pieces[i]);
              v.state == Decoder.Done && v.payload == Payloads(frames)[i]
  {
    forall strict ensures Incremental.FeedUntilRefused(Limits(max, strict), Incremental.IDLE, chunks)
                          == Incremental.Outcome(Payloads(frames), Incremental.IDLE, Clean) {
      var lim := Limits(max, strict);
      assert [] + Concat(chunks) == Concat(chunks);
      Incremental.ChunkingIsInvisible(lim, Incremental.IDLE, chunks);
      ParseOfWire(lim, frames);
    }
    forall i | 0 <= i < |frames|
      ensures var v := Decoder.FeedAll(max, Decoder.Decode(max, []), pieces[i]);
              v.state == Decoder.Done && v.payload == Payloads(frames)[i]
    {
      assert [] + Concat(pieces[i]) == Concat(pieces[i]);
      Decoder.ChunkingIsInvisible(max, [], pieces[i]);
      Decoder.FrameIsDone(max, frames[i]);
    }
  }

  /**
   On any octets at all: cut where the stream parser cuts, the decoder finds the
   parser's messages one by one, and in what is left no message, but an error exactly
   when the parser refuses it.
  */
  lemma FrameByFrame(max: nat, s: bytes)
    ensures var lim := Limits(max, true);
            var frames, p := Consumed(lim, s), Parse(lim, s);
            && AllAcceptable(lim, frames) && s == Wire(frames) + p.rest && |frames| == |p.messages|
            && (forall i | 0 <= i < |frames| ::
                  var v := Decoder.Decode(max, Encoding(frames[i]));
                  v.state == Decoder.Done && v.payload == p.messages[i])
            && !Decoder.Decode(max, p.rest).hasMessage
            && (Decoder.Decode(max, p.rest).state == Decoder.Error <==> p.verdict != Clean)
            && (Decoder.Decode(max, p.rest).limitExceeded <==> p.verdict == TooLarge)
  {
    var lim := Limits(max, true);
    var frames, p := Consumed(lim, s), Parse(lim, s);
    ParseConserves(lim, s);
    forall i | 0 <= i < |frames|
      ensures var v := Decoder.Decode(max, Encoding(frames[i]));
              v.state == Decoder.Done && v.payload == p.messages[i]
    {
      Decoder.FrameIsDone(max, frames[i]);
      assert Payloads(frames)[i] == frames[i].payload;
    }
    RestIsBlocked(lim, s);
    Decoder.AgreesWithParse(max, p.rest);
  }

  // ----- One message at most -----

  ghost predicate OneFrame(max: nat, s: bytes) {
    exists f: Frame :: Acceptable(Limits(max, true), f) && s == Encoding(f)
  }

  lemma DoneMeansOneFrame(max: nat, s: bytes)
    ensures Decoder.Decode(max, s).state == Decoder.Done <==> OneFrame(max, s)
  {
    Decoder.DoneIsOneFrame(max, s);
    if OneFrame(max, s) {
      var f: Frame :| Acceptable(Limits(max, true), f) && s == Encoding(f);
      Decoder.FrameIsDone(max, f);
    }
  }

  /** All octets so far may still be, or are, the one response message. */
  predicate OneMessageAtMost(p: Parsed) {
    p.verdict == Clean && (p.messages == [] || (|p.messages| == 1 && p.rest == []))
  }

  lemma ErrorByParse(max: nat, s: bytes)
    ensures var v, p := Decoder.Decode(max, s), Parse(Limits(max, true), s);
            && (v.state != Decoder.Error <==> OneMessageAtMost(p))
            && (v.limitExceeded <==> p.messages == [] && p.verdict == TooLarge)
  {
    if HEADER_SIZE <= |s| && Judge(Limits(max, true), s) == Clean {
      var len := FromBe32(s[1..5]);
      if HEADER_SIZE + len <= |s| {
        FirstMessage(max, s, HEADER_SIZE + len);
      }
    }
  }

  lemma FirstMessage(max: nat, s: bytes, end: nat)
    requires HasHead(Limits(max, true), s) && end == HEADER_SIZE + FromBe32(s[1..5])
    ensures var p := Parse(Limits(max, true), s); p.messages != [] && (OneMessageAtMost(p) <==> |s| == end)
  {
    assert Parse(Limits(max, true), s) == Parse(Limits(max, true), s[end..]).After([s[HEADER_SIZE..end]]);
    WhatIsLeft(max, s[end..]);
  }

  lemma WhatIsLeft(max: nat, s: bytes)
    ensures var p := Parse(Limits(max, true), s); p.verdict == Clean && p.messages == [] && p.rest == [] <==> s == []
  {}

  lemma PrefixIsFine(max: nat, a: bytes, b: bytes)
    requires OneFrame(max, a + b)
    ensures OneMessageAtMost(Parse(Limits(max, true), a))
  {
    Decoder.DecodeSplits(max, a, b);
    DoneMeansOneFrame(max, a + b);
    ErrorByParse(max, a);
  }
}
